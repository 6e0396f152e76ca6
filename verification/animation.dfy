/**
 * The animated parts of the background (`ParticleField` and `CyberShape` in
 * Background3d.jsx): the frame gate that lets a rotation update through on
 * every `frameSkip`-th tick, and the fill of a particle field's positions
 * buffer.
 *
 * Each component owns its own frame counter and rotation; the host calls
 * `Tick` once per rendered frame. `mounted` stands for `ref.current` being
 * set, which the rendering library does once the object exists.
 */
module Animation {

  // ---------------------------------------------------------------------------
  // The frame gate

  /**
   * Whether the tick that brought the counter to `count` updates the rotation:
   * `count % frameSkip !== 0` rejects it. With `frameSkip` 0 the remainder is
   * NaN, which is never 0, so every tick is rejected.
   */
  predicate Accepts(count: nat, frameSkip: nat): (r: bool)
    ensures frameSkip == 0 ==> !r
    ensures frameSkip == 1 ==> r
    ensures frameSkip >= 1 && count < frameSkip ==> (r <==> count == 0)
  {
    frameSkip != 0 && count % frameSkip == 0
  }

  /** How many of the ticks that brought the counter to 1, 2, ..., n are accepted. */
  function AcceptedAmong(n: nat, frameSkip: nat): (r: nat)
    ensures r <= n
    ensures frameSkip == 0 ==> r == 0
    ensures frameSkip > n ==> r == 0
  {
    if n == 0 then 0
    else AcceptedAmong(n - 1, frameSkip) + (if Accepts(n, frameSkip) then 1 else 0)
  }

  lemma MulAtLeast(a: int, d: int)
    requires a >= 1 && d >= 1
    ensures a * d >= d
  {
    assert a * d == (a - 1) * d + d;
  }

  /** Quotient and remainder are the only pair that rebuilds `n`. */
  lemma DivModUnique(n: int, d: int, q: int, r: int)
    requires d >= 1 && 0 <= r < d && n == q * d + r
    ensures n / d == q && n % d == r
  {
    var q', r' := n / d, n % d;
    assert q' * d + r' == q * d + r;
    assert (q' - q) * d == r - r' by {
      assert (q' - q) * d == q' * d - q * d;
    }
    if q' - q >= 1 {
      MulAtLeast(q' - q, d);
    } else if q - q' >= 1 {
      MulAtLeast(q - q', d);
    }
  }

  /** Going from n - 1 to n ticks, the quotient grows by one exactly at multiples. */
  lemma DivStep(n: nat, d: nat)
    requires d >= 1 && n >= 1
    ensures n / d == (n - 1) / d + (if n % d == 0 then 1 else 0)
  {
    var q, r := (n - 1) / d, (n - 1) % d;
    DivModUnique(n - 1, d, q, r);
    if r == d - 1 {
      DivModUnique(n, d, q + 1, 0);
    } else {
      DivModUnique(n, d, q, r + 1);
    }
  }

  /** With frame skip N, exactly floor(n / N) of n ticks are accepted. */
  lemma {:induction false} AcceptedAmongIsFloor(n: nat, frameSkip: nat)
    requires frameSkip >= 1
    ensures AcceptedAmong(n, frameSkip) == n / frameSkip
  {
    if n > 0 {
      AcceptedAmongIsFloor(n - 1, frameSkip);
      DivStep(n, frameSkip);
    }
  }

  /** Frame skip 1 accepts every tick. */
  lemma EveryTickAcceptedWithSkipOne(n: nat)
    ensures AcceptedAmong(n, 1) == n
  {
    AcceptedAmongIsFloor(n, 1);
  }

  /** Accepted ticks are evenly spaced: `frameSkip` ticks apart. */
  lemma AcceptedEvenlySpaced(count: nat, frameSkip: nat)
    requires frameSkip >= 1
    ensures Accepts(count, frameSkip) <==> Accepts(count + frameSkip, frameSkip)
    ensures Accepts(count, frameSkip) ==>
              forall k :: count < k < count + frameSkip ==> !Accepts(k, frameSkip)
  {
    var q, r := count / frameSkip, count % frameSkip;
    DivModUnique(count + frameSkip, frameSkip, q + 1, r);
    if r == 0 {
      forall k | count < k < count + frameSkip
        ensures !Accepts(k, frameSkip)
      {
        DivModUnique(k, frameSkip, q, k - count);
      }
    }
  }

  // ---------------------------------------------------------------------------
  // Particle positions

  datatype Point = Point(x: real, y: real, z: real)

  /**
   * Fills a buffer of `3 * count` coordinates; point i takes indices 3i, 3i+1
   * and 3i+2. `sample(i, radius)` stands for the i-th point drawn uniformly in
   * the sphere of that radius.
   */
  method FillPositions(count: nat, radius: real, sample: (nat, real) -> Point) returns (p: array<real>)
    ensures fresh(p)
    ensures p.Length == 3 * count
    ensures forall i :: 0 <= i < count ==>
              && p[3 * i] == sample(i, radius).x
              && p[3 * i + 1] == sample(i, radius).y
              && p[3 * i + 2] == sample(i, radius).z
  {
    p := new real[3 * count];
    for i := 0 to count
      invariant forall j :: 0 <= j < i ==>
                  && p[3 * j] == sample(j, radius).x
                  && p[3 * j + 1] == sample(j, radius).y
                  && p[3 * j + 2] == sample(j, radius).z
    {
      var point := sample(i, radius);
      p[i * 3] := point.x;
      p[i * 3 + 1] := point.y;
      p[i * 3 + 2] := point.z;
    }
  }

  // ---------------------------------------------------------------------------
  // The two animated components

  /** Euler angles about x and y; the z angle is never changed. */
  datatype Rotation = Rotation(x: real, y: real)

  /** A point cloud that spins a little on every accepted tick. */
  class ParticleField {
    const count: nat
    const radius: real
    const frameSkip: nat
    const positions: array<real>
    var mounted: bool
    var frameCount: nat
    var rotation: Rotation
    /** How many ticks have updated the rotation so far. */
    ghost var updates: nat

    ghost predicate Valid()
      reads this
    {
      updates == AcceptedAmong(frameCount, frameSkip)
    }

    constructor (count: nat, radius: real, frameSkip: nat, sample: (nat, real) -> Point)
      ensures Valid()
      ensures this.count == count && this.radius == radius && this.frameSkip == frameSkip
      ensures !mounted && frameCount == 0 && rotation == Rotation(0.0, 0.0)
      ensures fresh(positions) && positions.Length == 3 * count
      ensures forall i :: 0 <= i < count ==>
                && positions[3 * i] == sample(i, radius).x
                && positions[3 * i + 1] == sample(i, radius).y
                && positions[3 * i + 2] == sample(i, radius).z
    {
      this.count := count;
      this.radius := radius;
      this.frameSkip := frameSkip;
      var buffer := FillPositions(count, radius, sample);
      positions := buffer;
      mounted := false;
      frameCount := 0;
      rotation := Rotation(0.0, 0.0);
      updates := 0;
    }

    /** The rendering library sets `ref.current`. */
    method Mount()
      requires Valid()
      modifies this
      ensures Valid() && mounted
      ensures frameCount == old(frameCount) && rotation == old(rotation)
    {
      mounted := true;
    }

    /**
     * One animation frame, `delta` seconds after the previous one. Without a
     * mounted object nothing changes; otherwise the counter moves by one, and
     * the rotation changes only if the gate accepts the new count.
     */
    method Tick(delta: real)
      requires Valid()
      modifies this
      ensures Valid()
      ensures mounted == old(mounted)
      ensures frameCount == if old(mounted) then old(frameCount) + 1 else old(frameCount)
      ensures rotation ==
                if old(mounted) && Accepts(frameCount, frameSkip)
                then Rotation(old(rotation).x - delta / 15.0, old(rotation).y - delta / 20.0)
                else old(rotation)
      ensures frameSkip >= 1 ==> updates == frameCount / frameSkip
    {
      if mounted {
        frameCount := frameCount + 1;
        if Accepts(frameCount, frameSkip) {
          rotation := Rotation(rotation.x - delta / 15.0, rotation.y - delta / 20.0);
          updates := updates + 1;
        }
      }
      if frameSkip >= 1 {
        AcceptedAmongIsFloor(frameCount, frameSkip);
      }
    }
  }

  /** The wireframe accent shape; its angles follow the clock. */
  class CyberShape {
    const frameSkip: nat
    var mounted: bool
    var frameCount: nat
    var rotation: Rotation
    /** How many ticks have updated the rotation so far. */
    ghost var updates: nat

    ghost predicate Valid()
      reads this
    {
      updates == AcceptedAmong(frameCount, frameSkip)
    }

    constructor (frameSkip: nat)
      ensures Valid() && this.frameSkip == frameSkip
      ensures !mounted && frameCount == 0 && rotation == Rotation(0.0, 0.0)
    {
      this.frameSkip := frameSkip;
      mounted := false;
      frameCount := 0;
      rotation := Rotation(0.0, 0.0);
      updates := 0;
    }

    /** The rendering library sets `meshRef.current`. */
    method Mount()
      requires Valid()
      modifies this
      ensures Valid() && mounted
      ensures frameCount == old(frameCount) && rotation == old(rotation)
    {
      mounted := true;
    }

    /**
     * One animation frame. The clock is read twice, once per axis, so the two
     * readings are separate inputs.
     */
    method Tick(elapsedForX: real, elapsedForY: real)
      requires Valid()
      modifies this
      ensures Valid()
      ensures mounted == old(mounted)
      ensures frameCount == if old(mounted) then old(frameCount) + 1 else old(frameCount)
      ensures rotation ==
                if old(mounted) && Accepts(frameCount, frameSkip)
                then Rotation(elapsedForX * 0.2, elapsedForY * 0.3)
                else old(rotation)
      ensures frameSkip >= 1 ==> updates == frameCount / frameSkip
    {
      if mounted {
        frameCount := frameCount + 1;
        if Accepts(frameCount, frameSkip) {
          rotation := Rotation(elapsedForX * 0.2, elapsedForY * 0.3);
          updates := updates + 1;
        }
      }
      if frameSkip >= 1 {
        AcceptedAmongIsFloor(frameCount, frameSkip);
      }
    }
  }
}

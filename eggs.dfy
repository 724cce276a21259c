/**
 Egg creation (index.js, the loop that fills `eggs`).

 Each of the 30 eggs gets a uniform scale of 0.02, a position jittered within a
 small box and a random rotation. The five calls to Math.random() an egg makes
 are passed in as a `Draw`, in the order the source makes them. Whether an egg
 is shown is not part of `Egg`: the reveal sequencer owns those flags, and every
 one starts hidden (see Reveal.Sequencer).
 */
module EggField {

  /** Number of eggs the source creates. */
  const EggCount: nat := 30

  /** Math.PI. */
  const Pi: real := 3.141592653589793

  const EggScale: real := 0.02

  datatype Vec3 = Vec3(x: real, y: real, z: real)

  datatype Egg = Egg(scale: Vec3, position: Vec3, rotation: Vec3)

  /** The results of the five Math.random() calls made for one egg, in call order. */
  datatype Draw = Draw(posX: real, posZ: real, rotY: real, rotX: real, rotZ: real)

  /** Math.random() returns a value in [0, 1). */
  predicate IsUnit(r: real)
  {
    0.0 <= r < 1.0
  }

  predicate UnitDraw(d: Draw)
  {
    IsUnit(d.posX) && IsUnit(d.posZ) && IsUnit(d.rotY) && IsUnit(d.rotX) && IsUnit(d.rotZ)
  }

  /** The region every egg lands in, for draws in [0, 1). */
  predicate WithinJitterBounds(e: Egg)
  {
    e.scale == Vec3(EggScale, EggScale, EggScale) &&
    -0.22 <= e.position.x < 0.03 && e.position.y == -0.2 && -0.1 < e.position.z <= 0.0 &&
    0.0 <= e.rotation.y < 2.0 * Pi &&
    -0.25 <= e.rotation.x < 0.25 && -0.25 <= e.rotation.z < 0.25
  }

  /** One iteration of the creation loop: the egg made from the draws `d`. */
  function PlaceEgg(d: Draw): (e: Egg)
    ensures UnitDraw(d) ==> WithinJitterBounds(e)
  {
    Egg(Vec3(EggScale, EggScale, EggScale),
        Vec3(-0.22 + d.posX * 0.25, -0.2, d.posZ * -0.1),
        Vec3(d.rotX * 0.5 - 0.25, d.rotY * Pi * 2.0, d.rotZ * 0.5 - 0.25))
  }

  /** The draws that would place an egg exactly at `e`. */
  function DrawFor(e: Egg): (d: Draw)
    ensures WithinJitterBounds(e) ==> UnitDraw(d)
  {
    Draw((e.position.x + 0.22) / 0.25, e.position.z / -0.1, e.rotation.y / (Pi * 2.0),
         (e.rotation.x + 0.25) / 0.5, (e.rotation.z + 0.25) / 0.5)
  }

  /** The bounds are tight: every egg within them is placed by some draws in [0, 1). */
  lemma EveryBoundedEggIsReachable(e: Egg)
    requires WithinJitterBounds(e)
    ensures UnitDraw(DrawFor(e)) && PlaceEgg(DrawFor(e)) == e
  {
  }

  /** The creation loop: pushes one egg per iteration, in insertion order. */
  method CreateEggs(draws: seq<Draw>) returns (eggs: seq<Egg>)
    requires |draws| == EggCount
    ensures |eggs| == EggCount
    ensures forall i :: 0 <= i < EggCount ==> eggs[i] == PlaceEgg(draws[i])
    ensures (forall i :: 0 <= i < EggCount ==> UnitDraw(draws[i])) ==>
              forall i :: 0 <= i < EggCount ==> WithinJitterBounds(eggs[i])
  {
    eggs := [];
    var i := 0;
    while i < EggCount
      invariant 0 <= i <= EggCount
      invariant |eggs| == i
      invariant forall k :: 0 <= k < i ==> eggs[k] == PlaceEgg(draws[k])
    {
      var egg := PlaceEgg(draws[i]);
      eggs := eggs + [egg];
      i := i + 1;
    }
  }
}

/**
 * The particle state the emitter manages: age, life span, the dead flag,
 * the properties initializers set, and the behaviour templates handed to
 * each particle. Kinematics (position, velocity, rotation, scale) are not
 * part of this model.
 */
module Particles {
  import opened ExtNats
  import opened Lists

  /**
   * What an initializer may set on its target: the life span, and the other
   * initialised properties (for example "radius") as named slots.
   */
  datatype Props = Props(life: ExtNat, attrs: map<string, int>)

  /**
   * A behaviour template; the emitter only stores, hands out and removes
   * them. Whether it is enabled is fixed when it is built.
   */
  class Behaviour {
    const typeName: string
    const isEnabled: bool

    /** The flag defaults to enabled. */
    constructor (typeName: string, isEnabled: Option<bool>)
      ensures this.typeName == typeName
      ensures isEnabled.None? ==> this.isEnabled
      ensures isEnabled.Some? ==> this.isEnabled == isEnabled.value
    {
      this.typeName := typeName;
      this.isEnabled := isEnabled.GetOr(true);
    }
  }

  /**
   * The enabled templates of `bs`, in their order: the behaviours a new
   * particle is given.
   */
  function EnabledBehaviours(bs: seq<Behaviour>): (r: seq<Behaviour>)
    ensures |r| <= |bs|
    ensures forall i :: 0 <= i < |r| ==> r[i] in bs && r[i].isEnabled
    ensures forall i :: 0 <= i < |bs| && bs[i].isEnabled ==> bs[i] in r
  {
    if |bs| == 0 then []
    else
      var last := bs[|bs| - 1];
      EnabledBehaviours(bs[..|bs| - 1]) + (if last.isEnabled then [last] else [])
  }

  /** Filtering two runs of templates one after the other is filtering their concatenation. */
  lemma {:induction false} EnabledBehavioursAppend(a: seq<Behaviour>, b: seq<Behaviour>)
    ensures EnabledBehaviours(a + b) == EnabledBehaviours(a) + EnabledBehaviours(b)
  {
    if |b| > 0 {
      var b' := b[..|b| - 1];
      assert (a + b)[..|a + b| - 1] == a + b';
      assert (a + b)[|a + b| - 1] == b[|b| - 1];
      EnabledBehavioursAppend(a, b');
    } else {
      assert a + b == a;
    }
  }

  /** A particle dies once its age has reached its life span. */
  predicate Expired(age: nat, life: ExtNat) {
    !Below(age, life)
  }

  class Particle {
    var age: nat
    var life: ExtNat
    var dead: bool
    var attrs: map<string, int>
    var behaviours: seq<Behaviour>

    /** A particle in its reset state: age 0, infinite life, alive, nothing set. */
    constructor ()
      ensures age == 0 && life == Infinite && !dead
      ensures attrs == map[] && behaviours == []
    {
      age := 0;
      life := Infinite;
      dead := false;
      attrs := map[];
      behaviours := [];
    }

    /** The part of the particle that initializers read and write. */
    function CurrentProps(): Props
      reads this
    {
      Props(life, attrs)
    }

    /** One integration step of this particle's clock: it ages and dies once its life is used up. */
    method Advance(time: nat)
      modifies this`age, this`dead
      ensures age == old(age) + time
      ensures dead == (old(dead) || Expired(age, life))
    {
      age := age + time;
      if Expired(age, life) {
        dead := true;
      }
    }
  }

  /**
   * The particles of `ps` that are not dead, in their original order: what
   * is left of the emitter's array after dead particles are spliced out.
   */
  function Survivors(ps: seq<Particle>): (r: seq<Particle>)
    reads ps
    ensures |r| <= |ps|
    ensures forall i :: 0 <= i < |r| ==> r[i] in ps && !r[i].dead
    ensures forall i :: 0 <= i < |ps| && !ps[i].dead ==> ps[i] in r
    ensures Distinct(ps) ==> Distinct(r)
  {
    if |ps| == 0 then []
    else
      var init, last := ps[..|ps| - 1], ps[|ps| - 1];
      assert ps == init + [last];
      assert Distinct(ps) ==> Distinct(init) && last !in init;
      Survivors(init) + (if last.dead then [] else [last])
  }

  /** When every particle is dead, none survives the pruning pass. */
  lemma NoSurvivorsWhenAllDead(ps: seq<Particle>)
    requires forall i :: 0 <= i < |ps| ==> ps[i].dead
    ensures Survivors(ps) == []
  {
  }

  /** When no particle is dead, pruning keeps the whole list. */
  lemma {:induction false} AllSurviveWhenNoneDead(ps: seq<Particle>)
    requires forall i :: 0 <= i < |ps| ==> !ps[i].dead
    ensures Survivors(ps) == ps
  {
    if |ps| > 0 {
      AllSurviveWhenNoneDead(ps[..|ps| - 1]);
      assert ps == ps[..|ps| - 1] + [ps[|ps| - 1]];
    }
  }

  /**
   * Pruning keeps the order of the array: pruning two consecutive runs of
   * particles gives the survivors of the first run followed by those of the second.
   */
  lemma {:induction false} SurvivorsAppend(a: seq<Particle>, b: seq<Particle>)
    ensures Survivors(a + b) == Survivors(a) + Survivors(b)
  {
    if |b| > 0 {
      var b', last := b[..|b| - 1], b[|b| - 1];
      assert (a + b)[..|a + b| - 1] == a + b';
      assert (a + b)[|a + b| - 1] == last;
      SurvivorsAppend(a, b');
    } else {
      assert a + b == a;
    }
  }
}

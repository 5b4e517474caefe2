/**
 * The emitter: a particle factory that stores particle initializers and
 * behaviours, emits a bounded (or unbounded) number of particles, ages
 * them, and is itself killed once its age exceeds its life.
 *
 * In the original an emitter is a particle; here it owns a `body` particle
 * that holds its own age, life span and dead flag. The rate and the event
 * dispatcher are not part of the model: an update is told how many
 * particles the rate asks for, and a ghost counter records how often the
 * "emitter dead" event was dispatched.
 */
module Emitters {
  import opened ExtNats
  import opened Lists
  import opened Particles
  import opened Initializers

  // ---------------------------------------------------------------------
  // The emitter's own clock and the kill rule of an update

  /** The emitter's own lifecycle: its age, its life, whether it is dead, and how often its death was announced. */
  datatype Clock = Clock(age: nat, life: ExtNat, dead: bool, deadEvents: nat)

  /**
   * One update of the emitter's clock: the emitter ages by `time`, and the
   * first time its age exceeds its life it is killed and its death announced.
   */
  function Tick(c: Clock, time: nat): Clock {
    var age := c.age + time;
    if !c.dead && Exceeds(age, c.life) then Clock(age, c.life, true, c.deadEvents + 1)
    else c.(age := age)
  }

  /** The total of a list of time steps. */
  function Sum(ts: seq<nat>): nat {
    if |ts| == 0 then 0 else Sum(ts[..|ts| - 1]) + ts[|ts| - 1]
  }

  /** The clock after one update per time step of `ts`, in order. */
  function Ticks(c: Clock, ts: seq<nat>): Clock {
    if |ts| == 0 then c else Tick(Ticks(c, ts[..|ts| - 1]), ts[|ts| - 1])
  }

  /**
   * Over any run of updates, the emitter ends dead exactly when it was dead
   * already or the run is not empty and its accumulated age exceeds its
   * life, and the death event is dispatched once and only once for a death.
   */
  lemma {:induction false} TicksKillOnce(c: Clock, ts: seq<nat>)
    ensures Ticks(c, ts).age == c.age + Sum(ts)
    ensures Ticks(c, ts).life == c.life
    ensures Ticks(c, ts).dead <==> c.dead || (|ts| > 0 && Exceeds(c.age + Sum(ts), c.life))
    ensures Ticks(c, ts).deadEvents == c.deadEvents + (if Ticks(c, ts).dead && !c.dead then 1 else 0)
  {
    if |ts| > 0 {
      var ts', last := ts[..|ts| - 1], ts[|ts| - 1];
      TicksKillOnce(c, ts');
      var mid := Ticks(c, ts');
      assert Ticks(c, ts) == Tick(mid, last);
      assert Sum(ts) == Sum(ts') + last;
      assert mid.age + last == c.age + Sum(ts);
      if |ts'| > 0 && Exceeds(c.age + Sum(ts'), c.life) {
        ExceedsMonotone(c.age + Sum(ts'), c.age + Sum(ts), c.life);
      }
    }
  }

  // ---------------------------------------------------------------------
  // How many particles are emitted

  /**
   * How many particles one generation pass creates when the rate asks for
   * `count`, `current` have been emitted and `total` may be: as many as
   * asked, stopping only where the total is reached.
   */
  function Quota(count: nat, current: nat, total: ExtNat): (k: nat)
    ensures k <= count
    ensures k > 0 ==> AtMost(current + k, total)
    ensures k < count ==> !Below(current + k, total)
  {
    match total
    case Infinite => count
    case Finite(t) =>
      if current >= t then 0
      else if count <= t - current then count
      else t - current
  }

  /** `n`, capped at the bound `e`. */
  function Cap(n: nat, e: ExtNat): nat {
    match e
    case Finite(t) => if n <= t then n else t
    case Infinite => n
  }

  /** The emit counter after one generation pass per rate count of `counts`, in order. */
  function EmittedAfter(current: nat, total: ExtNat, counts: seq<nat>): nat {
    if |counts| == 0 then current
    else
      var before := EmittedAfter(current, total, counts[..|counts| - 1]);
      before + Quota(counts[|counts| - 1], before, total)
  }

  /**
   * Emission neither overshoots nor undershoots: from a counter within the
   * total, after any run of generation passes the counter is what the rate
   * asked for in all, capped at the total. With a finite total N and enough
   * asked for, exactly N particles are emitted.
   */
  lemma {:induction false} EmissionIsCapped(current: nat, total: ExtNat, counts: seq<nat>)
    requires AtMost(current, total)
    ensures EmittedAfter(current, total, counts) == Cap(current + Sum(counts), total)
  {
    if |counts| > 0 {
      EmissionIsCapped(current, total, counts[..|counts| - 1]);
    }
  }

  // ---------------------------------------------------------------------
  // The emitter

  class Emitter {
    /** The emitter's own particle state: age, life, dead flag, initialised properties. */
    const body: Particle
    /** The particles emitted by this emitter, in creation order. */
    var particles: seq<Particle>
    /** The initializers run on each particle when it is created. */
    var initializers: seq<Initializer>
    /** The behaviour templates handed to each particle when it is created. */
    var behaviours: seq<Behaviour>
    /** The behaviours of the emitter itself. */
    var emitterBehaviours: seq<Behaviour>
    /** The number of particles emitted since the last `Emit`. */
    var currentEmitTime: nat
    /** How many particles the emitter should emit in all. */
    var totalEmitTimes: ExtNat
    /** Whether the emitter is emitting particles. */
    var isEmitting: bool
    /** How often the "emitter dead" event has been dispatched. */
    ghost var deadEvents: nat
    /** How often `Emit` has brought the emitter back from the dead. */
    ghost var revivals: nat

    /**
     * The emitter does not hold itself, holds no particle twice, has
     * announced each of its deaths exactly once (one announcement per
     * revival, plus one if it is dead now), and a dead emitter is not
     * emitting.
     */
    ghost predicate Valid()
      reads this, body
    {
      && body !in particles
      && Distinct(particles)
      && deadEvents == revivals + (if body.dead then 1 else 0)
      && (body.dead ==> !isEmitting)
    }

    ghost function ClockOf(): Clock
      reads this, body
    {
      Clock(body.age, body.life, body.dead, deadEvents)
    }

    /** The emitter will create particles on its next generation pass. */
    predicate CanEmit()
      reads this
    {
      isEmitting && Below(currentEmitTime, totalEmitTimes)
    }

    /** A new emitter: empty collections, nothing to emit, not emitting, alive with an infinite life. */
    constructor ()
      ensures Valid() && fresh(body)
      ensures particles == [] && initializers == [] && behaviours == [] && emitterBehaviours == []
      ensures currentEmitTime == 0 && totalEmitTimes == Finite(0) && !isEmitting && !CanEmit()
      ensures ClockOf() == Clock(0, Infinite, false, 0)
    {
      body := new Particle();
      particles := [];
      initializers := [];
      behaviours := [];
      emitterBehaviours := [];
      currentEmitTime := 0;
      totalEmitTimes := Finite(0);
      isEmitting := false;
      deadEvents := 0;
      revivals := 0;
    }

    // -------------------------------------------------------------------
    // Lifecycle

    /**
     * Sets how many particles to emit in all and the emitter's life (both
     * default to Infinity), restarts the emit counter and enables emission.
     * A dead emitter comes back to life; its age is kept.
     */
    method Emit(times: Option<ExtNat>, life: Option<ExtNat>)
      requires Valid()
      modifies this`currentEmitTime, this`totalEmitTimes, this`isEmitting, this`revivals, body`life, body`dead
      ensures Valid()
      ensures totalEmitTimes == OrInfinity(times) && body.life == OrInfinity(life)
      ensures currentEmitTime == 0 && isEmitting && !body.dead
      ensures CanEmit() <==> totalEmitTimes != Finite(0)
      ensures body.age == old(body.age) && deadEvents == old(deadEvents)
      ensures AtMost(currentEmitTime, totalEmitTimes)
    {
      currentEmitTime := 0;
      totalEmitTimes := OrInfinity(times);
      body.life := OrInfinity(life);
      if body.dead {
        body.dead := false;
        revivals := revivals + 1;
      }
      isEmitting := true;
    }

    /** Sets how many particles to emit in all (default Infinity); nothing else changes. */
    method SetTotalEmitTimes(times: Option<ExtNat>)
      requires Valid()
      modifies this`totalEmitTimes
      ensures Valid()
      ensures totalEmitTimes == OrInfinity(times)
    {
      totalEmitTimes := OrInfinity(times);
    }

    /** Sets the emitter's life (default Infinity); nothing else changes. */
    method SetLife(life: Option<ExtNat>)
      requires Valid()
      modifies body`life
      ensures Valid()
      ensures body.life == OrInfinity(life)
    {
      body.life := OrInfinity(life);
    }

    /**
     * Stops the emitter from emitting particles: emission is switched off and
     * the total is frozen at what has been emitted. Existing particles live on.
     */
    method StopEmit()
      requires Valid()
      modifies this`totalEmitTimes, this`isEmitting
      ensures Valid()
      ensures !isEmitting && totalEmitTimes == Finite(currentEmitTime)
      ensures !CanEmit() && AtMost(currentEmitTime, totalEmitTimes)
    {
      totalEmitTimes := Finite(currentEmitTime);
      isEmitting := false;
    }

    /** Kills every particle of the emitter; they leave `particles` on the next update. */
    method RemoveAllParticles()
      requires Valid()
      modifies particles
      ensures Valid()
      ensures forall i :: 0 <= i < |particles| ==> particles[i].dead
      ensures forall i :: 0 <= i < |particles| ==>
                && particles[i].age == old(particles[i].age)
                && particles[i].CurrentProps() == old(particles[i].CurrentProps())
                && particles[i].behaviours == old(particles[i].behaviours)
    {
      for i := 0 to |particles|
        invariant forall j :: 0 <= j < i ==> particles[j].dead
        invariant forall j :: 0 <= j < |particles| ==>
                    && particles[j].age == old(particles[j].age)
                    && particles[j].CurrentProps() == old(particles[j].CurrentProps())
                    && particles[j].behaviours == old(particles[j].behaviours)
      {
        particles[i].dead := true;
      }
    }

    // -------------------------------------------------------------------
    // Initializers

    /** Appends `initializer`; the existing ones keep their order. */
    method AddInitializer(initializer: Initializer)
      requires Valid()
      modifies this`initializers
      ensures Valid()
      ensures initializers == old(initializers) + [initializer]
    {
      initializers := initializers + [initializer];
    }

    /** Adds each initializer of `xs`, in order. */
    method AddInitializers(xs: seq<Initializer>)
      requires Valid()
      modifies this`initializers
      ensures Valid()
      ensures initializers == old(initializers) + xs
    {
      for k := 0 to |xs|
        invariant Valid()
        invariant initializers == old(initializers) + xs[..k]
      {
        AddInitializer(xs[k]);
        assert xs[..k + 1] == xs[..k] + [xs[k]];
      }
      assert xs[..|xs|] == xs;
    }

    /** Replaces the initializers with `xs`. */
    method SetInitializers(xs: seq<Initializer>)
      requires Valid()
      modifies this`initializers
      ensures Valid()
      ensures initializers == xs
    {
      initializers := xs;
    }

    /** Removes the first occurrence of `initializer`, keeping the others in order. */
    method RemoveInitializer(initializer: Initializer)
      requires Valid()
      modifies this`initializers
      ensures Valid()
      ensures initializers == RemoveFirst(old(initializers), initializer)
    {
      initializers := RemoveFirst(initializers, initializer);
    }

    /** Removes every initializer. */
    method RemoveAllInitializers()
      requires Valid()
      modifies this`initializers
      ensures Valid()
      ensures initializers == []
    {
      initializers := [];
    }

    // -------------------------------------------------------------------
    // Behaviour templates handed to particles

    /** Appends `behaviour`; the existing ones keep their order. */
    method AddBehaviour(behaviour: Behaviour)
      requires Valid()
      modifies this`behaviours
      ensures Valid()
      ensures behaviours == old(behaviours) + [behaviour]
    {
      behaviours := behaviours + [behaviour];
    }

    /** Adds each behaviour of `xs`, in order. */
    method AddBehaviours(xs: seq<Behaviour>)
      requires Valid()
      modifies this`behaviours
      ensures Valid()
      ensures behaviours == old(behaviours) + xs
    {
      for k := 0 to |xs|
        invariant Valid()
        invariant behaviours == old(behaviours) + xs[..k]
      {
        AddBehaviour(xs[k]);
        assert xs[..k + 1] == xs[..k] + [xs[k]];
      }
      assert xs[..|xs|] == xs;
    }

    /** Replaces the behaviours with `xs`. */
    method SetBehaviours(xs: seq<Behaviour>)
      requires Valid()
      modifies this`behaviours
      ensures Valid()
      ensures behaviours == xs
    {
      behaviours := xs;
    }

    /** Removes the first occurrence of `behaviour`, keeping the others in order. */
    method RemoveBehaviour(behaviour: Behaviour)
      requires Valid()
      modifies this`behaviours
      ensures Valid()
      ensures behaviours == RemoveFirst(old(behaviours), behaviour)
    {
      behaviours := RemoveFirst(behaviours, behaviour);
    }

    /** Removes every behaviour. */
    method RemoveAllBehaviours()
      requires Valid()
      modifies this`behaviours
      ensures Valid()
      ensures behaviours == []
    {
      behaviours := [];
    }

    // -------------------------------------------------------------------
    // Behaviours of the emitter itself

    /** Appends `behaviour`; the existing ones keep their order. */
    method AddEmitterBehaviour(behaviour: Behaviour)
      requires Valid()
      modifies this`emitterBehaviours
      ensures Valid()
      ensures emitterBehaviours == old(emitterBehaviours) + [behaviour]
    {
      emitterBehaviours := emitterBehaviours + [behaviour];
    }

    /** Adds each behaviour of `xs`, in order. */
    method AddEmitterBehaviours(xs: seq<Behaviour>)
      requires Valid()
      modifies this`emitterBehaviours
      ensures Valid()
      ensures emitterBehaviours == old(emitterBehaviours) + xs
    {
      for k := 0 to |xs|
        invariant Valid()
        invariant emitterBehaviours == old(emitterBehaviours) + xs[..k]
      {
        AddEmitterBehaviour(xs[k]);
        assert xs[..k + 1] == xs[..k] + [xs[k]];
      }
      assert xs[..|xs|] == xs;
    }

    /** Replaces the emitter behaviours with `xs`. */
    method SetEmitterBehaviours(xs: seq<Behaviour>)
      requires Valid()
      modifies this`emitterBehaviours
      ensures Valid()
      ensures emitterBehaviours == xs
    {
      emitterBehaviours := xs;
    }

    /** Removes the first occurrence of `behaviour`, keeping the others in order. */
    method RemoveEmitterBehaviour(behaviour: Behaviour)
      requires Valid()
      modifies this`emitterBehaviours
      ensures Valid()
      ensures emitterBehaviours == RemoveFirst(old(emitterBehaviours), behaviour)
    {
      emitterBehaviours := RemoveFirst(emitterBehaviours, behaviour);
    }

    /** Removes every emitter behaviour. */
    method RemoveAllEmitterBehaviours()
      requires Valid()
      modifies this`emitterBehaviours
      ensures Valid()
      ensures emitterBehaviours == []
    {
      emitterBehaviours := [];
    }

    // -------------------------------------------------------------------
    // Creating and ageing particles

    /**
     * Sets up `p`: runs every enabled initializer on it in order, hands it
     * the behaviour templates, and appends it to `particles`.
     */
    method SetupParticle(p: Particle)
      requires Valid() && p != body && p !in particles
      modifies this`particles, p, body`life, body`attrs
      ensures Valid()
      ensures particles == old(particles) + [p]
      ensures p.CurrentProps() == ApplyAll(initializers, old(p.CurrentProps()))
      ensures p.behaviours == EnabledBehaviours(behaviours)
      ensures p.age == old(p.age) && p.dead == old(p.dead)
      ensures body.CurrentProps() == old(body.CurrentProps())
    {
      for k := 0 to |initializers|
        invariant particles == old(particles)
        invariant p.CurrentProps() == ApplyAll(initializers[..k], old(p.CurrentProps()))
        invariant p.age == old(p.age) && p.dead == old(p.dead)
        invariant body.CurrentProps() == old(body.CurrentProps())
      {
        assert initializers[..k + 1][..k] == initializers[..k];
        if initializers[k].isEnabled {
          initializers[k].Init(body, p);
        }
      }
      assert initializers[..|initializers|] == initializers;
      p.behaviours := EnabledBehaviours(behaviours);
      particles := particles + [p];
    }

    /**
     * Creates a particle in its reset state, sets it up with `SetupParticle`
     * and so appends it to `particles`.
     */
    method CreateParticle()
      requires Valid()
      modifies this`particles, body`life, body`attrs
      ensures Valid()
      ensures |particles| == |old(particles)| + 1 && particles[..|old(particles)|] == old(particles)
      ensures var p := particles[|old(particles)|];
              && fresh(p)
              && p.CurrentProps() == ApplyAll(initializers, Props(Infinite, map[]))
              && p.age == 0 && !p.dead
              && p.behaviours == EnabledBehaviours(behaviours)
      ensures body.CurrentProps() == old(body.CurrentProps())
    {
      var p := new Particle();
      SetupParticle(p);
    }

    /**
     * One generation pass: while emitting, creates up to `count` particles
     * (the number the rate asks for), each a reset particle set up by
     * `SetupParticle`, and stops where the total is reached.
     */
    method Generate(count: nat)
      requires Valid()
      modifies this`particles, this`currentEmitTime, body`life, body`attrs
      ensures Valid()
      ensures var k := if isEmitting then Quota(count, old(currentEmitTime), totalEmitTimes) else 0;
              && currentEmitTime == old(currentEmitTime) + k
              && |particles| == |old(particles)| + k
      ensures particles[..|old(particles)|] == old(particles)
      ensures forall i :: |old(particles)| <= i < |particles| ==>
                && fresh(particles[i])
                && particles[i].CurrentProps() == ApplyAll(initializers, Props(Infinite, map[]))
                && particles[i].age == 0 && !particles[i].dead
                && particles[i].behaviours == EnabledBehaviours(behaviours)
      ensures body.CurrentProps() == old(body.CurrentProps())
      ensures old(AtMost(currentEmitTime, totalEmitTimes)) ==> AtMost(currentEmitTime, totalEmitTimes)
    {
      ghost var k := if isEmitting then Quota(count, currentEmitTime, totalEmitTimes) else 0;
      var created := 0;
      while created < count && CanEmit()
        invariant Valid()
        invariant created <= k
        invariant currentEmitTime == old(currentEmitTime) + created
        invariant |particles| == |old(particles)| + created
        invariant particles[..|old(particles)|] == old(particles)
        invariant forall i :: |old(particles)| <= i < |particles| ==>
                    && fresh(particles[i])
                    && particles[i].CurrentProps() == ApplyAll(initializers, Props(Infinite, map[]))
                    && particles[i].age == 0 && !particles[i].dead
                    && particles[i].behaviours == EnabledBehaviours(behaviours)
        invariant body.CurrentProps() == old(body.CurrentProps())
      {
        CreateParticle();
        currentEmitTime := currentEmitTime + 1;
        created := created + 1;
      }
    }

    /** Ages every particle by `time`; a particle whose life is used up dies. */
    method Integrate(time: nat)
      requires Valid()
      modifies particles
      ensures Valid()
      ensures forall i :: 0 <= i < |particles| ==>
                && particles[i].age == old(particles[i].age) + time
                && particles[i].dead == (old(particles[i].dead) || Expired(particles[i].age, particles[i].life))
                && particles[i].CurrentProps() == old(particles[i].CurrentProps())
                && particles[i].behaviours == old(particles[i].behaviours)
    {
      for i := 0 to |particles|
        invariant forall j :: 0 <= j < i ==>
                    && particles[j].age == old(particles[j].age) + time
                    && particles[j].dead == (old(particles[j].dead) || Expired(particles[j].age, particles[j].life))
                    && particles[j].CurrentProps() == old(particles[j].CurrentProps())
                    && particles[j].behaviours == old(particles[j].behaviours)
        invariant forall j :: i <= j < |particles| ==>
                    && particles[j].age == old(particles[j].age)
                    && particles[j].dead == old(particles[j].dead)
                    && particles[j].CurrentProps() == old(particles[j].CurrentProps())
                    && particles[j].behaviours == old(particles[j].behaviours)
      {
        particles[i].Advance(time);
      }
    }

    /** Splices every dead particle out of `particles`, keeping the living in order. */
    method RemoveDead()
      requires Valid()
      modifies this`particles
      ensures Valid()
      ensures particles == Survivors(old(particles))
    {
      var kept := [];
      for i := 0 to |particles|
        invariant kept == Survivors(particles[..i])
      {
        assert particles[..i + 1][..i] == particles[..i];
        if !particles[i].dead {
          kept := kept + [particles[i]];
        }
      }
      assert particles[..|particles|] == particles;
      particles := kept;
    }

    /**
     * The particle half of an update: every particle ages by `time`, and the
     * particles that died are removed from `particles` in this same pass.
     */
    method IntegrateAndPrune(time: nat)
      requires Valid()
      modifies this`particles, particles
      ensures Valid()
      ensures forall i :: 0 <= i < |old(particles)| ==>
                && old(particles)[i].age == old(particles[i].age) + time
                && old(particles)[i].dead == (old(particles[i].dead) || Expired(old(particles)[i].age, old(particles)[i].life))
                && old(particles)[i].CurrentProps() == old(particles[i].CurrentProps())
                && old(particles)[i].behaviours == old(particles[i].behaviours)
      ensures particles == Survivors(old(particles))
    {
      Integrate(time);
      RemoveDead();
    }

    /**
     * The kill rule of an update: the emitter ages by `time` and, whenever
     * its age exceeds its life, is killed and stops emitting, even when an
     * `Emit` switched a dead emitter back on; its death is announced once,
     * when it goes from alive to dead.
     */
    method AdvanceAge(time: nat)
      requires Valid()
      modifies this`isEmitting, this`deadEvents, body`age, body`dead
      ensures Valid()
      ensures ClockOf() == Tick(old(ClockOf()), time)
      ensures isEmitting == (old(isEmitting) && !Exceeds(body.age, body.life))
    {
      body.age := body.age + time;
      if Exceeds(body.age, body.life) {
        isEmitting := false;
        if !body.dead {
          body.dead := true;
          deadEvents := deadEvents + 1;
        }
      }
    }

    /**
     * The particle half of an update: the particles age, the dead ones are
     * removed in this same pass, and a generation pass appends new ones.
     */
    method Step(time: nat, count: nat)
      requires Valid()
      modifies this`particles, this`currentEmitTime, particles, body`life, body`attrs
      ensures Valid()
      ensures forall i :: 0 <= i < |old(particles)| ==>
                && old(particles)[i].age == old(particles[i].age) + time
                && old(particles)[i].dead == (old(particles[i].dead) || Expired(old(particles)[i].age, old(particles)[i].life))
                && old(particles)[i].CurrentProps() == old(particles[i].CurrentProps())
                && old(particles)[i].behaviours == old(particles[i].behaviours)
      ensures var survivors := Survivors(old(particles));
              var k := if isEmitting then Quota(count, old(currentEmitTime), totalEmitTimes) else 0;
              && |particles| == |survivors| + k
              && particles[..|survivors|] == survivors
              && currentEmitTime == old(currentEmitTime) + k
              && forall i :: |survivors| <= i < |particles| ==>
                   && fresh(particles[i]) && particles[i].age == 0 && !particles[i].dead
                   && particles[i].CurrentProps() == ApplyAll(initializers, Props(Infinite, map[]))
                   && particles[i].behaviours == EnabledBehaviours(behaviours)
      ensures body.CurrentProps() == old(body.CurrentProps())
    {
      ghost var before := particles;
      IntegrateAndPrune(time);
      ghost var survivors := particles;
      ghost var emitted := currentEmitTime;
      Generate(count);
      ghost var k := if isEmitting then Quota(count, emitted, totalEmitTimes) else 0;
      assert |particles| == |survivors| + k;
      assert particles[..|survivors|] == survivors;
      assert Survivors(before) == survivors;
    }

    /**
     * Updates the emitter by `time`, when the rate asks for `count` new
     * particles: the emitter ages and is killed once its age exceeds its
     * life; then the particles age, the dead ones are removed in this same
     * update, and a generation pass runs.
     */
    method Update(time: nat, count: nat)
      requires Valid()
      modifies this`particles, this`currentEmitTime, this`isEmitting, this`deadEvents, particles
      modifies body`age, body`dead, body`life, body`attrs
      ensures Valid()
      ensures ClockOf() == Tick(old(ClockOf()), time)
      ensures isEmitting == (old(isEmitting) && !Exceeds(body.age, body.life))
      ensures forall i :: 0 <= i < |old(particles)| ==>
                && old(particles)[i].age == old(particles[i].age) + time
                && old(particles)[i].dead == (old(particles[i].dead) || Expired(old(particles)[i].age, old(particles)[i].life))
                && old(particles)[i].CurrentProps() == old(particles[i].CurrentProps())
                && old(particles)[i].behaviours == old(particles[i].behaviours)
      ensures var survivors := Survivors(old(particles));
              var k := if isEmitting then Quota(count, old(currentEmitTime), totalEmitTimes) else 0;
              && |particles| == |survivors| + k
              && particles[..|survivors|] == survivors
              && currentEmitTime == old(currentEmitTime) + k
              && forall i :: |survivors| <= i < |particles| ==>
                   && fresh(particles[i]) && particles[i].age == 0 && !particles[i].dead
                   && particles[i].CurrentProps() == ApplyAll(initializers, Props(Infinite, map[]))
                   && particles[i].behaviours == EnabledBehaviours(behaviours)
      ensures body.CurrentProps() == old(body.CurrentProps())
      ensures old(AtMost(currentEmitTime, totalEmitTimes)) ==> AtMost(currentEmitTime, totalEmitTimes)
      ensures body.dead ==> currentEmitTime == old(currentEmitTime) && particles == Survivors(old(particles))
    {
      AdvanceAge(time);
      Step(time, count);
    }
  }
}

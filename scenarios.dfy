/**
 * Client code that drives an emitter through the documented scenarios and
 * proves their outcome from the emitter's contracts alone.
 */
module Scenarios {
  import opened ExtNats
  import opened Particles
  import opened Emitters

  /**
   * An emitter with a life of 100 ms, updated by 50 ms while the rate asks
   * for 3 particles, is alive, still emitting, and holds 3 new particles of
   * infinite life (it has no initializers to set one).
   */
  method EmitsWhileAlive() returns (e: Emitter)
    ensures e.Valid() && e.isEmitting && e.ClockOf() == Clock(50, Finite(100), false, 0)
    ensures e.currentEmitTime == 3 && |e.particles| == 3
    ensures forall i :: 0 <= i < 3 ==> e.particles[i].life == Infinite && !e.particles[i].dead
    ensures fresh(e) && fresh(e.body) && forall i :: 0 <= i < 3 ==> fresh(e.particles[i])
  {
    e := new Emitter();
    e.Emit(None, Some(Finite(100)));
    assert Survivors([]) == [];
    e.Update(50, 3);
  }

  /**
   * The same emitter, updated by 60 ms more while the rate asks for 3 more
   * particles, is dead and announced its death once. The update that killed
   * it created no particle, and the 3 earlier particles are still there.
   */
  method DiesOnceLifeIsExceeded() returns (e: Emitter)
    ensures e.Valid() && e.body.dead && e.deadEvents == 1 && !e.isEmitting
    ensures e.currentEmitTime == 3 && |e.particles| == 3
  {
    e := EmitsWhileAlive();
    ghost var three := e.particles;
    e.Update(60, 3);
    assert e.ClockOf() == Clock(110, Finite(100), true, 1);
    assert forall i :: 0 <= i < 3 ==> !three[i].dead;
    AllSurviveWhenNoneDead(three);
  }

  /**
   * An emitter killed by its life and then told to emit again with a life
   * its age is already past is killed again by its next update: it creates
   * nothing, and this second death is announced too.
   */
  method ReEmitPastLifeIsKilled() returns (e: Emitter)
    ensures e.Valid() && e.body.dead && e.deadEvents == 2 && !e.isEmitting
    ensures e.currentEmitTime == 0 && e.particles == []
  {
    e := new Emitter();
    e.Emit(None, Some(Finite(100)));
    assert Survivors([]) == [];
    e.Update(150, 0);
    assert e.ClockOf() == Clock(150, Finite(100), true, 1);
    e.Emit(None, Some(Finite(100)));
    e.Update(10, 5);
  }

  /**
   * An emitter killed by its life and then told to emit again with a longer
   * life is alive again and emits; when its age passes the new life it dies
   * a second time, and each death is announced once.
   */
  method ReEmitRevives() returns (e: Emitter)
    ensures e.Valid() && e.body.dead && e.deadEvents == 2 && !e.isEmitting
    ensures e.currentEmitTime == 5
  {
    e := new Emitter();
    e.Emit(None, Some(Finite(100)));
    assert Survivors([]) == [];
    e.Update(150, 0);
    assert e.ClockOf() == Clock(150, Finite(100), true, 1);
    e.Emit(None, Some(Finite(1000)));
    e.Update(10, 5);
    assert e.ClockOf() == Clock(160, Finite(1000), false, 1);
    assert e.isEmitting && e.currentEmitTime == 5;
    e.Update(1000, 5);
  }

  /**
   * An emitter told to emit 5 particles, whose rate asks for 7 at once,
   * holds exactly 5 particles of age 0 after one update of 0 ms.
   */
  method EmitsExactlyTotal() returns (e: Emitter)
    ensures e.Valid() && |e.particles| == 5 && e.currentEmitTime == 5
    ensures forall i :: 0 <= i < |e.particles| ==> e.particles[i].age == 0
  {
    e := new Emitter();
    e.Emit(Some(Finite(5)), None);
    assert Survivors([]) == [];
    e.Update(0, 7);
  }

  /**
   * Once the total is reached, a later update adds no particle, however
   * many the rate asks for.
   */
  method NoEmissionPastTotal(e: Emitter, time: nat, count: nat)
    requires e.Valid() && e.totalEmitTimes == Finite(e.currentEmitTime)
    modifies e, e.body, e.particles
    ensures e.Valid() && e.currentEmitTime == old(e.currentEmitTime)
    ensures |e.particles| <= |old(e.particles)|
  {
    e.Update(time, count);
  }

  /**
   * A killed emitter creates no particle, whatever the rate asks for, until
   * `Emit` brings it back; its particles still age and the dead ones go.
   */
  method KilledEmitterCreatesNothing(e: Emitter, time: nat, count: nat)
    requires e.Valid() && e.body.dead
    modifies e, e.body, e.particles
    ensures e.Valid() && e.body.dead && !e.isEmitting && e.deadEvents == old(e.deadEvents)
    ensures e.currentEmitTime == old(e.currentEmitTime) && e.particles == Survivors(old(e.particles))
  {
    e.Update(time, count);
  }

  /**
   * `SetTotalEmitTimes` is a plain setter: given a total below what has been
   * emitted, it leaves the counter above the total.
   */
  method LoweredTotalBelowCounter() returns (e: Emitter)
    ensures e.Valid() && e.isEmitting && e.body.life == Infinite
    ensures e.currentEmitTime == 5 && e.totalEmitTimes == Finite(2)
    ensures !AtMost(e.currentEmitTime, e.totalEmitTimes)
    ensures fresh(e) && fresh(e.body) && forall i :: 0 <= i < |e.particles| ==> fresh(e.particles[i])
  {
    e := new Emitter();
    e.Emit(Some(Finite(5)), None);
    assert Survivors([]) == [];
    e.Update(0, 5);
    e.SetTotalEmitTimes(Some(Finite(2)));
  }

  /**
   * Raising the total of an emitter that reached it resumes emission at the
   * next update, without a call to `Emit`.
   */
  method RaisedTotalResumesEmission() returns (e: Emitter)
    ensures e.Valid() && e.isEmitting && e.currentEmitTime == 8
  {
    e := LoweredTotalBelowCounter();
    e.SetTotalEmitTimes(None);
    e.Update(0, 3);
  }

  /**
   * Killing every particle and stopping emission leaves the emitter with no
   * particle after its next update, whatever the rate asks for.
   */
  method ClearThenUpdate(e: Emitter, time: nat, count: nat)
    requires e.Valid()
    modifies e, e.body, e.particles
    ensures e.Valid() && e.particles == []
  {
    e.RemoveAllParticles();
    e.StopEmit();
    ghost var killed := e.particles;
    e.Update(time, count);
    NoSurvivorsWhenAllDead(killed);
  }
}

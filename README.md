# three-nebula emitter and initializer, modelled in Dafny

This project models the bookkeeping core of the three-nebula particle engine:

- the `Emitter`, a particle factory. It stores the particle initializers, the
  behaviour templates handed to each particle and its own emitter behaviours.
  It emits a bounded or unbounded number of particles, ages and prunes them,
  and is killed once its age exceeds its life;
- the `Initializer` base class, a per-particle rule with a type tag and an
  enabled flag. `init` routes to `initialize` on the particle or on the
  emitter.

The declaration files hold no method bodies, so the model follows the field
declarations and the doc-comments. Where those are silent it follows the
engine's documented design.

Modules:

- `ExtNats` (`extnat.dfy`): `Option`, and the extended naturals
  `Finite(n) | Infinite` that stand for counts and lives defaulting to
  `Infinity`.
- `Lists` (`lists.dfy`): the list removal the emitter performs. The
  declarations only say that an element is removed; the model reads this as
  "its first occurrence goes, the others keep their order, and an absent
  element changes nothing". Elements are compared by reference.
- `Particles` (`particle.dfy`): the particle state the emitter manages (age,
  life, dead flag, initialised properties, behaviours) and the pruning filter
  `Survivors`.
- `Initializers` (`initializer.dfy`): the `Initializer` class. Its abstract
  `initialize` is an uninterpreted transformation `effect` of the target's
  properties. The static `requiresWebGlApi` flag becomes a field of the class
  descriptor `InitializerClass`. The base class `BASE_CLASS` does not require
  the API, and its `initialize` (`BASE_EFFECT`) sets nothing.
- `Emitters` (`emitter.dfy`): the `Emitter` class and the pure specification of
  its clock (`Tick`, `Ticks`) and of its emission count (`Quota`,
  `EmittedAfter`).
- `Scenarios` (`scenarios.dfy`): client code that drives an emitter through
  concrete runs and proves their outcome from the contracts alone.

An emitter is a particle in the original. Here it owns a `body` particle that
holds its own age, life, dead flag and initialised properties. The rate is
not modelled: `Update` takes `count`, the number of particles the rate asks
for. The event dispatcher is not modelled either: the ghost counter
`deadEvents` records how often the "emitter dead" event was dispatched.

Decisions where the doc-comments and the engine's design text differ:

- Kill rule. The `update` comment says the emitter is killed when its age is
  "greater than time". The model reads "time" as the emitter's life and
  kills at `age > life`. The design text says `age >= life`. Particles die at
  `age >= life`, as the design text says.
- Death and revival. `emit` takes a dead emitter back to emitting: it clears
  the dead flag and keeps the age. The kill rule applies at every update, so
  an emitter emitted again with a life its age is already past is killed
  again at its next update. Every death is announced exactly once, when the
  emitter goes from alive to dead; the ghost counter `revivals` records how
  often `emit` brought the emitter back.
- Counters. The doc-comments call `currentEmitTime` "the current emit
  iteration" and `totalEmitTimes` "the total number of times the emitter
  should emit particles", which reads as counting emission passes. The model
  follows the design text instead: both count particles created, and a
  generation pass stops when the total is reached.
- Update after death. The `update` comment says that it calls `generate` and
  `integrate`, without a condition. The model does so in every update, so
  particles keep ageing and are pruned in the update that kills the emitter
  and after it. A killed emitter creates no particle until `emit` brings it
  back (`Scenarios.KilledEmitterCreatesNothing`). The design text runs neither step on a killed emitter and releases
  its particles.
- Behaviour templates. A new particle is given the enabled templates of the
  emitter, in order, as the design text says. It gets the template objects
  themselves, not clones of them.
- `removeAllParticles` is documented as "Kills all of the emitter's
  particles". The model marks every particle dead. The update that follows
  removes them, so none remains afterwards (`Scenarios.ClearThenUpdate`).
- `stopEmit` switches emission off. It also freezes `totalEmitTimes` at
  `currentEmitTime`, as the design text says.
- A new emitter starts with `totalEmitTimes == Finite(0)` and is not emitting
  until `emit` is called.

## Model

| member | source | states |
|---|---|---|
| ExtNats.OrInfinity | types/emitter/Emitter.d.ts:109-110 | an omitted count or life is Infinity; a given one is kept |
| Lists.IndexOf | types/emitter/Emitter.d.ts:168-174 | the index found holds the element and is its first occurrence |
| Lists.RemoveFirst | types/emitter/Emitter.d.ts:168-174 | removing an absent element changes nothing; otherwise exactly one occurrence of it goes and every other element stays (multiset difference) |
| Lists.SpliceDistinct | types/emitter/Emitter.d.ts:168-174 | splicing one index out of a list without repeats leaves a list without repeats that lacks the removed element |
| Lists.RemoveFirstDistinct | types/emitter/Emitter.d.ts:168-174 | removing from a list without repeats leaves a list without repeats that no longer holds the element |
| Lists.RemoveUndoesAppend | types/emitter/Emitter.d.ts:146-174 | removing an initializer just added to a list that lacked it restores the list |
| Particles.Particle.constructor | types/emitter/Emitter.d.ts:257-263 | a particle starts reset: age 0, infinite life, alive, no properties, no behaviours |
| Particles.Particle.Advance | types/emitter/Emitter.d.ts:292-299 | a particle ages by the time step and is dead afterwards exactly when it was dead or its age has reached its life |
| Particles.Survivors | types/emitter/Emitter.d.ts:272-284 | pruning keeps only living particles, keeps every living one, never grows the list and keeps it free of repeats |
| Particles.NoSurvivorsWhenAllDead | types/emitter/Emitter.d.ts:140-145 | once every particle is killed, pruning leaves none |
| Particles.AllSurviveWhenNoneDead | types/emitter/Emitter.d.ts:272-284 | when no particle is dead, pruning keeps the whole list |
| Particles.SurvivorsAppend | types/emitter/Emitter.d.ts:272-284 | pruning keeps the particles' order: pruning a concatenation is the concatenation of the pruned parts |
| Particles.EnabledBehaviours | types/emitter/Emitter.d.ts:181-188 | the templates handed to a new particle are enabled templates of the emitter, and every enabled template is among them |
| Particles.EnabledBehavioursAppend | types/emitter/Emitter.d.ts:181-195 | filtering keeps the templates' order: filtering a concatenation is the concatenation of the filtered parts |
| Initializers.ParseToJson | types/initializer/Initializer.d.ts:15-22 | the constructor arguments written as a description and read back are the same arguments |
| Initializers.ToJsonParse | types/initializer/Initializer.d.ts:15-22 | a well-formed description, read and written back, is the original restricted to its "type" and "isEnabled" keys |
| Initializers.Initializer.constructor | types/initializer/Initializer.d.ts:23-33 | the type defaults to the abstract type and the flag to enabled; given values are kept; a class that requires the WebGL API cannot be built without it |
| Initializers.Initializer.Initialize | types/initializer/Initializer.d.ts:47-53 | the target's initialisable properties become the initializer's effect applied to their old value, and nothing else on the target changes |
| Initializers.Initializer.Init | types/initializer/Initializer.d.ts:34-42 | with a particle, only that particle's properties are initialised and the emitter is untouched; without one, the emitter's are |
| Initializers.ApplyAllAppend | types/emitter/Emitter.d.ts:146-160 | running two lists of initializers one after the other equals running their concatenation |
| Initializers.DisabledInitializersChangeNothing | types/initializer/Initializer.d.ts:23-33 | disabled initializers leave the target's properties as they were |
| Initializers.BaseInitializersChangeNothing | types/initializer/Initializer.d.ts:43-53 | initializers of the base class, whose `initialize` is abstract, leave the target's properties as they were |
| Initializers.NewBaseInitializer | types/initializer/Initializer.d.ts:7-33 | an initializer of the base class is built without the WebGL API, with the constructor's defaults |
| Initializers.FromJson | types/initializer/Initializer.d.ts:15-22 | a well-formed description gives a new initializer whose type and enabled flag are read from it, with the constructor's defaults when absent; a malformed one is an error |
| Emitters.TicksKillOnce | types/emitter/Emitter.d.ts:272-284 | over any run of updates the emitter ages by their total and ends dead exactly when it was dead or its total age exceeds its life; the death event is dispatched once, exactly when the run takes it from alive to dead |
| Emitters.Quota | types/emitter/Emitter.d.ts:300-306 | one generation pass creates at most the requested count, never passes the total, and stops short only at the total |
| Emitters.EmissionIsCapped | types/emitter/Emitter.d.ts:104-113 | after any run of generation passes the counter equals everything asked for, capped at the total: no overshoot, no undershoot |
| Emitters.Emitter.constructor | types/emitter/Emitter.d.ts:6-58 | a new emitter has empty collections, a zero counter and total, is not emitting, and is alive with an infinite life |
| Emitters.Emitter.Emit | types/emitter/Emitter.d.ts:104-113 | sets the total and the life (each defaulting to Infinity), restarts the counter and enables emission; a dead emitter comes back to life with its age kept, and no death is announced; the counter is within the total |
| Emitters.Emitter.SetTotalEmitTimes | types/emitter/Emitter.d.ts:120-126 | sets only the total, defaulting to Infinity |
| Emitters.Emitter.SetLife | types/emitter/Emitter.d.ts:127-133 | sets only the emitter's life, defaulting to Infinity |
| Emitters.Emitter.StopEmit | types/emitter/Emitter.d.ts:134-139 | the emitter no longer emits, and the total is frozen at what was emitted, so the counter is within it |
| Emitters.Emitter.RemoveAllParticles | types/emitter/Emitter.d.ts:140-145 | every particle of the emitter is dead, with its age, properties and behaviours unchanged |
| Emitters.Emitter.AddInitializer | types/emitter/Emitter.d.ts:146-153 | appends exactly the initializer; the others keep their order |
| Emitters.Emitter.AddInitializers | types/emitter/Emitter.d.ts:154-160 | appends the given initializers, in order |
| Emitters.Emitter.SetInitializers | types/emitter/Emitter.d.ts:161-167 | the initializers become exactly the given ones |
| Emitters.Emitter.RemoveInitializer | types/emitter/Emitter.d.ts:168-174 | removes the first occurrence of the initializer and keeps the others in order |
| Emitters.Emitter.RemoveAllInitializers | types/emitter/Emitter.d.ts:175-180 | the initializers become empty |
| Emitters.Emitter.AddBehaviour | types/emitter/Emitter.d.ts:181-188 | appends exactly the behaviour; the others keep their order |
| Emitters.Emitter.AddBehaviours | types/emitter/Emitter.d.ts:189-195 | appends the given behaviours, in order |
| Emitters.Emitter.SetBehaviours | types/emitter/Emitter.d.ts:196-202 | the behaviours become exactly the given ones |
| Emitters.Emitter.RemoveBehaviour | types/emitter/Emitter.d.ts:203-209 | removes the first occurrence of the behaviour and keeps the others in order |
| Emitters.Emitter.RemoveAllBehaviours | types/emitter/Emitter.d.ts:210-215 | the behaviours become empty |
| Emitters.Emitter.AddEmitterBehaviour | types/emitter/Emitter.d.ts:216-222 | appends exactly the emitter behaviour; the others keep their order |
| Emitters.Emitter.AddEmitterBehaviours | types/emitter/Emitter.d.ts:223-229 | appends the given emitter behaviours, in order |
| Emitters.Emitter.SetEmitterBehaviours | types/emitter/Emitter.d.ts:230-236 | the emitter behaviours become exactly the given ones |
| Emitters.Emitter.RemoveEmitterBehaviour | types/emitter/Emitter.d.ts:237-243 | removes the first occurrence of the emitter behaviour and keeps the others in order |
| Emitters.Emitter.RemoveAllEmitterBehaviours | types/emitter/Emitter.d.ts:244-249 | the emitter behaviours become empty |
| Emitters.Emitter.SetupParticle | types/emitter/Emitter.d.ts:264-271 | every enabled initializer runs on the particle in order, the particle gets the enabled behaviour templates, and it is appended: the list grows by one and ends with it |
| Emitters.Emitter.CreateParticle | types/emitter/Emitter.d.ts:257-263 | a new reset particle is set up and appended: it is fresh, alive, of age 0, initialised by the enabled initializers and holds the enabled templates; the earlier particles stay in front |
| Emitters.Emitter.Generate | types/emitter/Emitter.d.ts:300-306 | while emitting, creates as many new set-up particles as the quota allows and advances the counter by the same number; existing particles stay in front; a counter within the total stays within it |
| Emitters.Emitter.Integrate | types/emitter/Emitter.d.ts:292-299 | every particle ages by the time step and dies when its age reaches its life; its properties and behaviours are unchanged |
| Emitters.Emitter.RemoveDead | types/emitter/Emitter.d.ts:272-284 | the particle list becomes its survivors, in order |
| Emitters.Emitter.IntegrateAndPrune | types/emitter/Emitter.d.ts:272-284 | every particle ages and its properties and behaviours stay; those that die in this update leave the list in this same update |
| Emitters.Emitter.AdvanceAge | types/emitter/Emitter.d.ts:272-284 | the emitter's clock makes one tick: it ages, stops emitting whenever its age exceeds its life, and announces its death once, when it goes from alive to dead |
| Emitters.Emitter.Step | types/emitter/Emitter.d.ts:272-284 | the old particles age with their properties and behaviours kept; the list becomes the survivors followed by exactly the quota of new, fresh, living, initialised particles |
| Emitters.Emitter.Update | types/emitter/Emitter.d.ts:272-284 | one update: the clock ticks, the kill rule applies, particles age with their properties and behaviours kept and the dead leave the list, then the quota of new particles is appended; the emitter's own properties are kept; a counter within the total stays within it; a dead emitter creates no particle |
| Scenarios.EmitsWhileAlive | types/emitter/Emitter.d.ts:272-284 | an emitter with a life of 100 updated by 50 while 3 particles are asked for is alive, emitting and holds 3 live particles of infinite life |
| Scenarios.DiesOnceLifeIsExceeded | types/emitter/Emitter.d.ts:272-284 | that emitter updated by 60 more is dead, announced once, created nothing in the killing update and still holds its 3 particles |
| Scenarios.ReEmitPastLifeIsKilled | types/emitter/Emitter.d.ts:104-113 | an emitter killed and then emitted again with a life its age is past creates nothing at its next update, is killed again and announced dead a second time |
| Scenarios.ReEmitRevives | types/emitter/Emitter.d.ts:104-113 | an emitter killed and then emitted again with a longer life emits again, then dies when its age passes the new life; each of its two deaths is announced once |
| Scenarios.EmitsExactlyTotal | types/emitter/Emitter.d.ts:104-113 | an emitter told to emit 5 holds exactly 5 particles of age 0 after one update asking for 7: emission stops at the total |
| Scenarios.KilledEmitterCreatesNothing | types/emitter/Emitter.d.ts:272-284 | a killed emitter, updated with any time and any count, creates no particle, stays dead and is not announced again; its dead particles leave the list |
| Scenarios.LoweredTotalBelowCounter | types/emitter/Emitter.d.ts:120-126 | setting a total below what was emitted leaves the counter above the total |
| Scenarios.RaisedTotalResumesEmission | types/emitter/Emitter.d.ts:120-126 | raising the total of an emitter that reached it resumes emission at the next update without `emit` |
| Scenarios.NoEmissionPastTotal | types/emitter/Emitter.d.ts:120-126 | once the total is reached no update adds a particle |
| Scenarios.ClearThenUpdate | types/emitter/Emitter.d.ts:140-145 | after removeAllParticles and stopEmit, the next update leaves no particle |

## Left out

- Rate and `setRate`: the rate is random and float-valued. `Update` takes the
  count the rate asks for as a parameter.
- `dispatch`, the event dispatcher, `addOnEmitterDeadEventListener` and
  `bindEmitterEvent`: publish/subscribe plumbing. The ghost counter
  `deadEvents` stands in for the "emitter dead" event. Particle events are
  not modelled.
- `setPosition`, `setRotation`, `damping`, `bindEmitter` and the Newtonian
  integration of particles: floating-point vector physics with no visible
  body. `Integrate` only ages particles and applies the death rule.
- Emitters.Emitter.Emit: totals and lives are JavaScript numbers in the
  original. The model takes a natural number or Infinity, so negative,
  fractional and NaN values cannot be given. A negative life, which the design
  text treats as immediate death, is therefore not modelled. The same holds
  for `SetTotalEmitTimes` and `SetLife`.
- Emitters.Emitter.SetTotalEmitTimes: a plain setter, as its doc-comment
  says. The design text promises that the counter never exceeds the total
  and that emission, once the total is reached, stops until `emit`. The
  model keeps neither promise across this setter: a total below the counter
  leaves the counter above it (`Scenarios.LoweredTotalBelowCounter`), and a
  raised total resumes emission at the next update without `emit`
  (`Scenarios.RaisedTotalResumesEmission`). `Emit`, `StopEmit`, `Generate`
  and `Update` state the counter-within-total invariant where it holds.
- Particles.Behaviour.constructor: a template's enabled flag is fixed when it
  is built. Switching a template on or off later is not modelled.
- Emitters.Emitter.SetupParticle: a particle gets the emitter's template
  objects, not per-particle clones, so per-particle behaviour state is not
  modelled.
- `updateEmitterBehaviours` and the per-step `mutate` of behaviours:
  behaviours are stored and handed out, never run.
- `experimental_emit`: it is driven by the system outside the emitter.
- `createParticle`'s pool: a particle is freshly allocated and reset instead
  of being taken from a pool. Slot reuse is therefore not modelled.
- Emitters.Emitter.Update: time is a natural number of milliseconds, not a
  float.
- Emitters.Emitter.Update: a killed emitter does not release its particles,
  and its particles keep ageing in later updates; see "Update after death"
  above.
- Emitters.Emitter.Update: the order is kill rule, ageing and pruning, then
  generation, so new particles are not aged in the update that creates them.
- Initializers.Initializer.Init: the emitter's own properties are those of
  its `body` particle, not the emitter object itself.
- Initializers.FromJson: only the "type" and "isEnabled" fields are read.
  Numbers and nested values of a description are not interpreted, and other
  keys are ignored rather than rejected.
- `reset` of an initializer: an abstract hook with no stated effect.
- `id`, `cID`, `name` and `index` bookkeeping: identifiers with no behaviour.
- Emitters.Emitter.SetInitializers: stores the given list as a value, so
  later edits to the caller's array are not seen (the aliasing of the
  original array is not modelled).
- Concrete initializers (`Radius`) and zones (`MeshZone`): random
  floating-point sampling. An initializer's `effect` is left uninterpreted.

/**
 * The initializer base class: a per-particle rule, tagged with a type and an
 * enabled flag, that sets properties on a particle (or on an emitter) once,
 * when the particle is set up. What a concrete variant sets is its
 * `effect`, an opaque transformation of the target's properties; the base
 * class's effect sets nothing.
 */
module Initializers {
  import opened ExtNats
  import opened Particles

  /** The type tag an initializer gets when its constructor is given none. */
  const INITIALIZER_TYPE_ABSTRACT: string := "Initializer"

  /** The WebGL API object that some initializer variants take as first constructor argument. */
  datatype WebGlApi = WebGlApi(handle: nat)

  /** The static side of an initializer class: whether it needs the WebGL API to be built. */
  datatype InitializerClass = InitializerClass(requiresWebGlApi: bool)

  /** The base class does not need the WebGL API. */
  const BASE_CLASS := InitializerClass(false)

  /** The base class's `initialize`: it sets nothing. */
  const BASE_EFFECT: Props -> Props := s => s

  /** A value of a declarative (JSON) description. */
  datatype JsonValue = JString(str: string) | JBool(flag: bool) | JNumber(num: int)

  /** The constructor arguments a declarative description may give; each may be left out. */
  datatype InitArgs = InitArgs(typeName: Option<string>, isEnabled: Option<bool>)

  /** The two keys of a description that hold constructor arguments. */
  const ARG_KEYS: set<string> := {"type", "isEnabled"}

  /** The description is well-formed: a "type" it holds is a string, an "isEnabled" it holds is a boolean. */
  predicate WellFormed(json: map<string, JsonValue>) {
    && ("type" in json ==> json["type"].JString?)
    && ("isEnabled" in json ==> json["isEnabled"].JBool?)
  }

  /**
   * Reads the constructor arguments of a description: a key that is absent
   * leaves its argument out; a key holding a value of the wrong kind is a
   * configuration error. Keys other than "type" and "isEnabled" are ignored.
   */
  function ParseArgs(json: map<string, JsonValue>): (r: Result<InitArgs>)
    ensures r.Ok? <==> WellFormed(json)
    ensures r.Ok? ==> (r.value.typeName.Some? <==> "type" in json)
                      && (r.value.isEnabled.Some? <==> "isEnabled" in json)
  {
    if "type" in json && !json["type"].JString? then Err("type must be a string")
    else if "isEnabled" in json && !json["isEnabled"].JBool? then Err("isEnabled must be a boolean")
    else
      Ok(InitArgs(if "type" in json then Some(json["type"].str) else None,
                  if "isEnabled" in json then Some(json["isEnabled"].flag) else None))
  }

  /** The description holding exactly the given constructor arguments. */
  function ToJson(args: InitArgs): (json: map<string, JsonValue>)
    ensures json.Keys <= ARG_KEYS
  {
    var t: map<string, JsonValue> := if args.typeName.Some? then map["type" := JString(args.typeName.value)] else map[];
    if args.isEnabled.Some? then t["isEnabled" := JBool(args.isEnabled.value)] else t
  }

  /** Reading back the description of some arguments gives those arguments. */
  lemma ParseToJson(args: InitArgs)
    ensures ParseArgs(ToJson(args)) == Ok(args)
  {
    var json := ToJson(args);
    assert "type" in json <==> args.typeName.Some?;
    assert "isEnabled" in json <==> args.isEnabled.Some?;
  }

  /** A well-formed description is, on its argument keys, the description of the arguments read from it. */
  lemma ToJsonParse(json: map<string, JsonValue>)
    requires WellFormed(json)
    ensures ToJson(ParseArgs(json).value) == map k | k in json && k in ARG_KEYS :: json[k]
  {
    var back := ToJson(ParseArgs(json).value);
    var kept := map k | k in json && k in ARG_KEYS :: json[k];
    assert back.Keys == kept.Keys;
  }

  class Initializer {
    const cls: InitializerClass
    const effect: Props -> Props
    var typeName: string
    var isEnabled: bool

    /**
     * Builds an initializer; the type defaults to the abstract type and the
     * initializer is enabled unless told otherwise. A class that requires the
     * WebGL API cannot be built without it.
     */
    constructor (cls: InitializerClass, api: Option<WebGlApi>, effect: Props -> Props,
                 typeName: Option<string>, isEnabled: Option<bool>)
      requires cls.requiresWebGlApi ==> api.Some?
      ensures this.cls == cls && this.effect == effect
      ensures typeName.None? ==> this.typeName == INITIALIZER_TYPE_ABSTRACT
      ensures typeName.Some? ==> this.typeName == typeName.value
      ensures isEnabled.None? ==> this.isEnabled
      ensures isEnabled.Some? ==> this.isEnabled == isEnabled.value
    {
      this.cls := cls;
      this.effect := effect;
      this.typeName := typeName.GetOr(INITIALIZER_TYPE_ABSTRACT);
      this.isEnabled := isEnabled.GetOr(true);
    }

    /** Sets this initializer's properties on `target`, and nothing else. */
    method Initialize(target: Particle)
      modifies target`life, target`attrs
      ensures target.CurrentProps() == effect(old(target.CurrentProps()))
    {
      var next := effect(target.CurrentProps());
      target.life := next.life;
      target.attrs := next.attrs;
    }

    /**
     * Initializes the particle when one is given, otherwise the emitter
     * (here: the emitter's own particle state).
     */
    method Init(emitter: Particle, particle: Particle?)
      modifies emitter`life, emitter`attrs, particle
      ensures particle != null ==> particle.CurrentProps() == effect(old(particle.CurrentProps()))
      ensures particle != null ==> particle.age == old(particle.age) && particle.dead == old(particle.dead)
                                   && particle.behaviours == old(particle.behaviours)
      ensures particle != null && particle != emitter ==> unchanged(emitter)
      ensures particle == null ==> emitter.CurrentProps() == effect(old(emitter.CurrentProps()))
    {
      if particle != null {
        Initialize(particle);
      } else {
        Initialize(emitter);
      }
    }
  }

  /**
   * The properties a target ends with when the enabled initializers of
   * `inits` run on it in order, starting from `s`.
   */
  function ApplyAll(inits: seq<Initializer>, s: Props): Props
    reads inits
  {
    if |inits| == 0 then s
    else
      var last := inits[|inits| - 1];
      var before := ApplyAll(inits[..|inits| - 1], s);
      if last.isEnabled then last.effect(before) else before
  }

  /** Running two lists of initializers one after the other is running their concatenation. */
  lemma {:induction false} ApplyAllAppend(a: seq<Initializer>, b: seq<Initializer>, s: Props)
    ensures ApplyAll(a + b, s) == ApplyAll(b, ApplyAll(a, s))
  {
    if |b| == 0 {
      assert a + b == a;
    } else {
      var b' := b[..|b| - 1];
      assert (a + b)[..|a + b| - 1] == a + b';
      assert (a + b)[|a + b| - 1] == b[|b| - 1];
      ApplyAllAppend(a, b', s);
    }
  }

  /** Disabled initializers are skipped: a list of them leaves the target as it was. */
  lemma {:induction false} DisabledInitializersChangeNothing(inits: seq<Initializer>, s: Props)
    requires forall i :: 0 <= i < |inits| ==> !inits[i].isEnabled
    ensures ApplyAll(inits, s) == s
  {
    if |inits| > 0 {
      DisabledInitializersChangeNothing(inits[..|inits| - 1], s);
    }
  }

  /** Initializers of the base class, enabled or not, leave the target as it was. */
  lemma {:induction false} BaseInitializersChangeNothing(inits: seq<Initializer>, s: Props)
    requires forall i :: 0 <= i < |inits| ==> inits[i].effect == BASE_EFFECT
    ensures ApplyAll(inits, s) == s
  {
    if |inits| > 0 {
      BaseInitializersChangeNothing(inits[..|inits| - 1], s);
    }
  }

  /**
   * Builds an initializer of the base class, which needs no WebGL API: the
   * constructor's precondition holds without one.
   */
  method NewBaseInitializer(typeName: Option<string>, isEnabled: Option<bool>) returns (r: Initializer)
    ensures fresh(r) && r.cls == BASE_CLASS && r.effect == BASE_EFFECT
    ensures r.typeName == typeName.GetOr(INITIALIZER_TYPE_ABSTRACT)
    ensures r.isEnabled == isEnabled.GetOr(true)
  {
    r := new Initializer(BASE_CLASS, None, BASE_EFFECT, typeName, isEnabled);
  }

  /**
   * Builds a new initializer of class `cls` from the constructor arguments a
   * declarative description holds ("type" and "isEnabled"); omitted ones
   * take the constructor's defaults. The result is a new object, never an
   * existing one; a malformed description is a configuration error.
   */
  method FromJson(cls: InitializerClass, api: Option<WebGlApi>, effect: Props -> Props,
                  json: map<string, JsonValue>) returns (r: Result<Initializer>)
    requires cls.requiresWebGlApi ==> api.Some?
    ensures r.Ok? <==> WellFormed(json)
    ensures r.Ok? ==> && fresh(r.value) && r.value.cls == cls && r.value.effect == effect
                      && r.value.typeName == ParseArgs(json).value.typeName.GetOr(INITIALIZER_TYPE_ABSTRACT)
                      && r.value.isEnabled == ParseArgs(json).value.isEnabled.GetOr(true)
  {
    var args := ParseArgs(json);
    if args.Err? {
      return Err(args.msg);
    }
    var init := new Initializer(cls, api, effect, args.value.typeName, args.value.isEnabled);
    r := Ok(init);
  }
}

/**
 * The motion-safety helpers of src/hooks/useReducedMotion.js: an animation
 * configuration is a record of named values, and when the user asks for
 * reduced motion its duration and easing are overridden.
 */
module ReducedMotion {

  /** The values an animation configuration holds. Numbers are reals. */
  datatype JsValue = Num(n: real) | Str(s: string) | Bool(b: bool)

  /** A plain object of animation options. Key order is not modelled. */
  type Config = map<string, JsValue>

  const ReducedDuration: real := 0.01
  const ReducedEase: string := "none"

  /** `getMotionDuration(duration, prefersReducedMotion)`. */
  function GetMotionDuration(duration: real, reduced: bool): (d: real)
    ensures reduced ==> d == ReducedDuration
    ensures !reduced ==> d == duration
  {
    if reduced then ReducedDuration else duration
  }

  /**
   * `getMotionConfig(config, prefersReducedMotion)`: `{...config,
   * duration: 0.01, ease: 'none'}` when reduced, `config` itself otherwise.
   */
  function GetMotionConfig(config: Config, reduced: bool): (r: Config)
    ensures !reduced ==> r == config
    ensures reduced ==> r.Keys == config.Keys + {"duration", "ease"}
    ensures reduced ==> r["duration"] == Num(ReducedDuration) && r["ease"] == Str(ReducedEase)
    ensures reduced ==> forall k :: k in config && k != "duration" && k != "ease" ==> r[k] == config[k]
  {
    if reduced then config["duration" := Num(ReducedDuration)]["ease" := Str(ReducedEase)] else config
  }

  /** Applying the override a second time changes nothing. */
  lemma MotionConfigIdempotent(config: Config, reduced: bool)
    ensures GetMotionConfig(GetMotionConfig(config, reduced), reduced) == GetMotionConfig(config, reduced)
  {
    if reduced {
      var once := GetMotionConfig(config, reduced);
      var twice := GetMotionConfig(once, reduced);
      assert twice.Keys == once.Keys;
      assert forall k :: k in once ==> twice[k] == once[k];
    }
  }

  /** Under reduced motion, a `stagger` or `delay` key passes through untouched. */
  lemma MotionConfigKeepsTiming(config: Config, reduced: bool, key: string)
    requires key == "stagger" || key == "delay"
    ensures key in GetMotionConfig(config, reduced) <==> key in config
    ensures key in config ==> GetMotionConfig(config, reduced)[key] == config[key]
  {
  }

  /** The two helpers agree on the duration of a configuration. */
  lemma MotionConfigDuration(config: Config, duration: real, reduced: bool)
    requires "duration" in config && config["duration"] == Num(duration)
    ensures GetMotionConfig(config, reduced)["duration"] == Num(GetMotionDuration(duration, reduced))
  {
  }
}

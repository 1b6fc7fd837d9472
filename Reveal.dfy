/**
 * The scroll-reveal hook of src/hooks/useReveal.js: the table from a reveal
 * direction to the animated properties' start and end values, the choice of
 * the animated elements, the stagger between them and the scroll trigger's
 * toggle actions, and the tween those choices add up to.
 */
module Reveal {
  import opened Wrappers
  import opened ReducedMotion

  /** The options of `useReveal`, as given; a `None` field takes its default. */
  datatype RevealOverrides = RevealOverrides(
    direction: Option<string>, distance: Option<real>, duration: Option<real>,
    delay: Option<real>, stagger: Option<real>, once: Option<bool>,
    childSelector: Option<string>, ease: Option<string>)

  datatype RevealOptions = RevealOptions(
    direction: string, distance: real, duration: real, delay: real,
    stagger: real, once: bool, childSelector: Option<string>, ease: string)

  /** The defaults of the destructuring at the top of the hook. */
  function ResolveOptions(o: RevealOverrides): (r: RevealOptions)
    ensures o.direction.None? ==> r.direction == "up"
    ensures o.direction.Some? ==> r.direction == o.direction.value
    ensures o.distance.None? ==> r.distance == 40.0
    ensures o.distance.Some? ==> r.distance == o.distance.value
    ensures o.duration.None? ==> r.duration == 0.8
    ensures o.duration.Some? ==> r.duration == o.duration.value
    ensures o.delay.None? ==> r.delay == 0.0
    ensures o.delay.Some? ==> r.delay == o.delay.value
    ensures o.stagger.None? ==> r.stagger == 0.1
    ensures o.stagger.Some? ==> r.stagger == o.stagger.value
    ensures o.once.None? ==> r.once
    ensures o.once.Some? ==> r.once == o.once.value
    ensures r.childSelector == o.childSelector
    ensures o.ease.None? ==> r.ease == "power3.out"
    ensures o.ease.Some? ==> r.ease == o.ease.value
  {
    RevealOptions(
      if o.direction.Some? then o.direction.value else "up",
      if o.distance.Some? then o.distance.value else 40.0,
      if o.duration.Some? then o.duration.value else 0.8,
      if o.delay.Some? then o.delay.value else 0.0,
      if o.stagger.Some? then o.stagger.value else 0.1,
      if o.once.Some? then o.once.value else true,
      o.childSelector,
      if o.ease.Some? then o.ease.value else "power3.out")
  }

  /** Options given in full, as overrides. */
  function Given(r: RevealOptions): RevealOverrides {
    RevealOverrides(Some(r.direction), Some(r.distance), Some(r.duration), Some(r.delay),
                    Some(r.stagger), Some(r.once), r.childSelector, Some(r.ease))
  }

  /** Options given in full are returned unchanged: no default overrides a given option. */
  lemma ResolveGiven(r: RevealOptions)
    ensures ResolveOptions(Given(r)) == r
  {
  }

  /** The options object with nothing in it. */
  const NoOverrides := RevealOverrides(None, None, None, None, None, None, None, None)

  /**
   * `useReveal()` with no options: the element alone is animated, once,
   * for 0.8 s with `power3.out` unless motion is reduced, no delay, and a
   * 0.1 s stagger that never applies to a single element.
   */
  lemma DefaultReveal<E>(element: E, query: string -> seq<E>, reduced: bool)
    ensures var r := ResolveOptions(NoOverrides);
      var children := RevealTargets(element, r.childSelector, query);
      var c := RevealMotionConfig(r, |children|, reduced);
      && children == [element]
      && ToggleActions(r.once) == "play none none none"
      && c["duration"] == Num(if reduced then ReducedDuration else 0.8)
      && c["ease"] == Str(if reduced then ReducedEase else "power3.out")
      && c["delay"] == Num(0.0) && c["stagger"] == Num(0.0)
  {
  }

  /**
   * A partial options object such as `useReveal({ distance: 80 })`: the one
   * option given keeps the caller's value and every other option is its
   * default.
   */
  lemma DistanceOnlyGiven(d: real)
    ensures ResolveOptions(NoOverrides.(distance := Some(d))) == ResolveOptions(NoOverrides).(distance := d)
  {
  }

  /** The properties a direction animates, `opacity` always among them. */
  function AnimatedKeys(direction: string): (ks: set<string>)
    ensures "opacity" in ks
  {
    match direction
    case "up" => {"opacity", "y", "z"}
    case "down" => {"opacity", "y", "z"}
    case "left" => {"opacity", "x", "z"}
    case "right" => {"opacity", "x", "z"}
    case "scale" => {"opacity", "scale", "z"}
    case "depth" => {"opacity", "z", "rotateX"}
    case _ => {"opacity"}
  }

  /** The resting value of a property: fully opaque, unscaled, unmoved. */
  function RestValue(key: string): real {
    if key == "opacity" || key == "scale" then 1.0 else 0.0
  }

  /**
   * The `switch (direction)` filling `fromVars` and `toVars` one property
   * at a time. Both start with `opacity` only; an unknown direction adds
   * nothing.
   */
  method DirectionVars(direction: string, distance: real)
    returns (fromVars: map<string, real>, toVars: map<string, real>)
    ensures fromVars.Keys == AnimatedKeys(direction) && toVars.Keys == fromVars.Keys
    ensures fromVars["opacity"] == 0.0
    ensures forall k :: k in toVars ==> toVars[k] == RestValue(k)
    ensures direction == "up" ==> fromVars["y"] == distance && fromVars["z"] == -20.0
    ensures direction == "down" ==> fromVars["y"] == -distance && fromVars["z"] == -20.0
    ensures direction == "left" ==> fromVars["x"] == distance && fromVars["z"] == -20.0
    ensures direction == "right" ==> fromVars["x"] == -distance && fromVars["z"] == -20.0
    ensures direction == "scale" ==> fromVars["scale"] == 0.8 && fromVars["z"] == -40.0
    ensures direction == "depth" ==> fromVars["z"] == -60.0 && fromVars["rotateX"] == 15.0
  {
    fromVars := map["opacity" := 0.0];
    toVars := map["opacity" := 1.0];
    match direction {
      case "up" =>
        fromVars := fromVars["y" := distance];
        fromVars := fromVars["z" := -20.0];
        toVars := toVars["y" := 0.0];
        toVars := toVars["z" := 0.0];
      case "down" =>
        fromVars := fromVars["y" := -distance];
        fromVars := fromVars["z" := -20.0];
        toVars := toVars["y" := 0.0];
        toVars := toVars["z" := 0.0];
      case "left" =>
        fromVars := fromVars["x" := distance];
        fromVars := fromVars["z" := -20.0];
        toVars := toVars["x" := 0.0];
        toVars := toVars["z" := 0.0];
      case "right" =>
        fromVars := fromVars["x" := -distance];
        fromVars := fromVars["z" := -20.0];
        toVars := toVars["x" := 0.0];
        toVars := toVars["z" := 0.0];
      case "scale" =>
        fromVars := fromVars["scale" := 0.8];
        fromVars := fromVars["z" := -40.0];
        toVars := toVars["scale" := 1.0];
        toVars := toVars["z" := 0.0];
      case "depth" =>
        fromVars := fromVars["z" := -60.0];
        fromVars := fromVars["rotateX" := 15.0];
        toVars := toVars["z" := 0.0];
        toVars := toVars["rotateX" := 0.0];
      case _ =>
    }
  }

  /**
   * `childSelector ? element.querySelectorAll(childSelector) : [element]`;
   * `query` stands for the element's `querySelectorAll`.
   */
  function RevealTargets<E>(element: E, childSelector: Option<string>, query: string -> seq<E>): (ts: seq<E>)
    ensures (childSelector.None? || childSelector.value == "") ==> ts == [element]
    ensures childSelector.Some? && childSelector.value != "" ==> ts == query(childSelector.value)
  {
    if childSelector.Some? && childSelector.value != "" then query(childSelector.value) else [element]
  }

  /** `children.length > 1 ? stagger : 0`. */
  function StaggerFor(count: nat, stagger: real): (s: real)
    ensures count > 1 ==> s == stagger
    ensures count <= 1 ==> s == 0.0
  {
    if count > 1 then stagger else 0.0
  }

  /** `once ? 'play none none none' : 'play none none reverse'`. */
  function ToggleActions(once: bool): (a: string)
    ensures |a| >= 14 && a[..14] == "play none none"
    ensures once <==> a == "play none none none"
    ensures !once <==> a == "play none none reverse"
  {
    if once then "play none none none" else "play none none reverse"
  }

  /** The configuration handed to `getMotionConfig` and its result. */
  function RevealMotionConfig(o: RevealOptions, count: nat, reduced: bool): (c: Config)
    ensures c.Keys == {"duration", "ease", "delay", "stagger"}
    ensures c["stagger"] == Num(StaggerFor(count, o.stagger)) && c["delay"] == Num(o.delay)
    ensures c["duration"] == Num(GetMotionDuration(o.duration, reduced))
    ensures c["ease"] == Str(if reduced then ReducedEase else o.ease)
  {
    GetMotionConfig(map["duration" := Num(o.duration), "ease" := Str(o.ease), "delay" := Num(o.delay),
                        "stagger" := Num(StaggerFor(count, o.stagger))], reduced)
  }

  /** A number-valued property map as configuration values. */
  function NumVars(vars: map<string, real>): (c: Config)
    ensures c.Keys == vars.Keys
    ensures forall k :: k in vars ==> c[k] == Num(vars[k])
  {
    map k | k in vars :: Num(vars[k])
  }

  datatype Tween<E> = Tween(targets: seq<E>, vars: Config)

  /**
   * The `tl.to` call: the children when there are several, with the
   * stagger; the element itself otherwise. The motion configuration is
   * spread after `toVars`, so it wins on a shared key.
   */
  function RevealTween<E>(element: E, children: seq<E>, toVars: map<string, real>, motion: Config): (t: Tween<E>)
    requires "stagger" in motion
    ensures |children| > 1 ==> t.targets == children
    ensures |children| <= 1 ==> t.targets == [element]
    ensures t.vars.Keys == toVars.Keys + motion.Keys
    ensures forall k :: k in motion ==> t.vars[k] == motion[k]
    ensures forall k :: k in toVars && k !in motion ==> t.vars[k] == Num(toVars[k])
  {
    if |children| > 1 then
      Tween(children, (NumVars(toVars) + motion)["stagger" := motion["stagger"]])
    else
      Tween([element], NumVars(toVars) + motion)
  }

  /** The animated properties never collide with the motion configuration's keys. */
  lemma AnimatedKeysAreNotTiming(direction: string)
    ensures AnimatedKeys(direction) !! {"duration", "ease", "delay", "stagger"}
  {
  }

  /**
   * The whole reveal for one element: `gsap.set` gives the chosen children
   * the start values, and the tween ends fully opaque at the resting
   * values with the motion-safe duration. The tween's targets are those
   * children only when there are several, or when no selector is given;
   * a selector matching exactly one element sets that element transparent
   * and tweens the container instead.
   */
  method RevealElement<E>(element: E, o: RevealOptions, query: string -> seq<E>, reduced: bool)
    returns (setTargets: seq<E>, fromVars: map<string, real>, t: Tween<E>)
    ensures setTargets == RevealTargets(element, o.childSelector, query)
    ensures fromVars.Keys == AnimatedKeys(o.direction) && fromVars["opacity"] == 0.0
    ensures "opacity" in t.vars && t.vars["opacity"] == Num(1.0)
    ensures forall k :: k in fromVars ==> k in t.vars && t.vars[k] == Num(RestValue(k))
    ensures "duration" in t.vars && t.vars["duration"] == Num(GetMotionDuration(o.duration, reduced))
    ensures "stagger" in t.vars
    ensures |setTargets| > 1 ==> t.targets == setTargets && t.vars["stagger"] == Num(o.stagger)
    ensures |setTargets| <= 1 ==> t.targets == [element] && t.vars["stagger"] == Num(0.0)
    ensures (o.childSelector.None? || o.childSelector.value == "") ==> setTargets == t.targets == [element]
  {
    setTargets := RevealTargets(element, o.childSelector, query);
    var toVars;
    fromVars, toVars := DirectionVars(o.direction, o.distance);
    var motion := RevealMotionConfig(o, |setTargets|, reduced);
    t := RevealTween(element, setTargets, toVars, motion);
    AnimatedKeysAreNotTiming(o.direction);
    assert forall k :: k in fromVars ==> k in toVars && k !in motion;
  }

  /**
   * As written, a child selector that matches one element: `gsap.set`
   * makes that child transparent, but the tween animates the container,
   * so the child is never revealed.
   */
  lemma SingleMatchIsNotTweened<E>(element: E, child: E, selector: string, toVars: map<string, real>, motion: Config)
    requires child != element && selector != "" && "stagger" in motion
    ensures var children := RevealTargets(element, Some(selector), _ => [child]);
      && children == [child]
      && RevealTween(element, children, toVars, motion).targets == [element]
      && child !in RevealTween(element, children, toVars, motion).targets
  {
  }

  /**
   * The tween as intended: it animates exactly the elements `gsap.set`
   * prepared, with the stagger that the motion configuration chose.
   */
  function IntendedRevealTween<E>(children: seq<E>, toVars: map<string, real>, motion: Config): (t: Tween<E>)
    ensures t.targets == children
    ensures t.vars.Keys == toVars.Keys + motion.Keys
    ensures forall k :: k in motion ==> t.vars[k] == motion[k]
    ensures forall k :: k in toVars && k !in motion ==> t.vars[k] == Num(toVars[k])
  {
    Tween(children, NumVars(toVars) + motion)
  }

  /** The intended tween is the written one whenever the latter animates the children it prepared. */
  lemma IntendedRevealAgrees<E>(element: E, children: seq<E>, toVars: map<string, real>, motion: Config)
    requires "stagger" in motion
    ensures |children| > 1 || children == [element] ==>
      IntendedRevealTween(children, toVars, motion) == RevealTween(element, children, toVars, motion)
  {
    var m := NumVars(toVars) + motion;
    assert m["stagger" := motion["stagger"]] == m;
  }

  /**
   * The reveal with the intended tween: every element made transparent by
   * `gsap.set` is the one tweened back to full opacity and the resting
   * values, whatever the selector matches.
   */
  method IntendedRevealElement<E>(element: E, o: RevealOptions, query: string -> seq<E>, reduced: bool)
    returns (setTargets: seq<E>, fromVars: map<string, real>, t: Tween<E>)
    ensures setTargets == RevealTargets(element, o.childSelector, query) && t.targets == setTargets
    ensures fromVars.Keys == AnimatedKeys(o.direction) && fromVars["opacity"] == 0.0
    ensures "opacity" in t.vars && t.vars["opacity"] == Num(1.0)
    ensures forall k :: k in fromVars ==> k in t.vars && t.vars[k] == Num(RestValue(k))
    ensures "duration" in t.vars && t.vars["duration"] == Num(GetMotionDuration(o.duration, reduced))
    ensures "stagger" in t.vars && t.vars["stagger"] == Num(StaggerFor(|setTargets|, o.stagger))
  {
    setTargets := RevealTargets(element, o.childSelector, query);
    var toVars;
    fromVars, toVars := DirectionVars(o.direction, o.distance);
    var motion := RevealMotionConfig(o, |setTargets|, reduced);
    t := IntendedRevealTween(setTargets, toVars, motion);
    AnimatedKeysAreNotTiming(o.direction);
    assert forall k :: k in fromVars ==> k in toVars && k !in motion;
  }
}

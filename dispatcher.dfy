/**
 * Turning a recognised gesture id into an action: resolve the binding for
 * the foreground application, gate non-toggles on the execution switch,
 * apply a per-id cooldown, then perform the action.
 */
module DispatcherModel {
  import opened Wrappers
  import opened JsonValues
  import opened SystemStateModel
  import opened Actions

  /** The `bindings` section: per-application tables first, then the global table. */
  datatype Bindings = Bindings(perApp: map<string, map<string, Json>>, global: map<string, Json>)

  /** The reply to a non-toggle while execution is disabled. */
  const Blocked := JObj([("type", JStr("blocked_execution"))])

  /** `resolve_action`: a binding of the foreground application wins; otherwise the global one; `JNull` when neither exists. */
  function Resolve(b: Bindings, app: Option<string>, gid: string): Json {
    if app.Some? && app.value != "" && app.value in b.perApp && gid in b.perApp[app.value] then b.perApp[app.value][gid]
    else if gid in b.global then b.global[gid]
    else JNull
  }

  /** The per-app table decides when it binds the id; otherwise the global table does. */
  lemma ResolvePrecedence(b: Bindings, app: Option<string>, gid: string)
    ensures app.Some? && app.value != "" && app.value in b.perApp && gid in b.perApp[app.value] ==>
      Resolve(b, app, gid) == b.perApp[app.value][gid]
    ensures !(app.Some? && app.value != "" && app.value in b.perApp && gid in b.perApp[app.value]) ==>
      Resolve(b, app, gid) == (if gid in b.global then b.global[gid] else JNull)
    ensures Resolve(b, app, gid) != JNull ==>
      gid in b.global || (app.Some? && app.value in b.perApp && gid in b.perApp[app.value])
  {
  }

  /** A missing key counts as last fired at time 0. */
  function LastFired(last: map<string, real>, key: string): real {
    if key in last then last[key] else 0.0
  }

  predicate CooldownPasses(last: map<string, real>, key: string, cdMs: int, now: real) {
    now - LastFired(last, key) >= cdMs as real
  }

  /**
   * Everything one `dispatch` call decides, or `AttributeError` when the
   * bound value is truthy but not a dict, so that reading its `type` raises
   * before any cooldown is consumed or action performed.
   */
  datatype Outcome =
    | Outcome(result: Option<Json>, flags: Flags, last: map<string, real>, effect: Effect)
    | AttributeError

  /** `dispatch(gesture_id, cooldown_ms)` with the foreground application `app` and the clock reading `now`. */
  function Dispatched(b: Bindings, f: Flags, last: map<string, real>, gid: Option<string>,
                    cdMs: int, app: Option<string>, now: real): Outcome
  {
    if gid.None? || gid.value == "" then Outcome(None, f, last, NoEffect)
    else
      var action := Resolve(b, app, gid.value);
      if !Truthy(action) then Outcome(None, f, last, NoEffect)
      else if !action.JObj? then AttributeError
      else if !IsToggle(action) && !f.executionEnabled then Outcome(Some(Blocked), f, last, NoEffect)
      else if !CooldownPasses(last, gid.value, cdMs, now) then Outcome(None, f, last, NoEffect)
      else Outcome(Some(action), Applied(f, action), last[gid.value := now], EffectOf(f, action))
  }

  /** The id names a binding that `dispatch` goes on to inspect. */
  predicate Bound(b: Bindings, gid: Option<string>, app: Option<string>) {
    gid.Some? && gid.value != "" && Truthy(Resolve(b, app, gid.value))
  }

  /**
   * Nothing changes when the id is falsy or nothing is bound; a bound value
   * that is not a dict raises; a non-toggle with execution disabled is
   * answered `blocked_execution`; a failed cooldown answers `None`. In every
   * one of these cases flags, firing times and the system are untouched.
   */
  lemma DispatchRefusals(b: Bindings, f: Flags, last: map<string, real>, gid: Option<string>,
                         cdMs: int, app: Option<string>, now: real)
    ensures !Bound(b, gid, app) ==> Dispatched(b, f, last, gid, cdMs, app, now) == Outcome(None, f, last, NoEffect)
    ensures Bound(b, gid, app) ==>
      (Dispatched(b, f, last, gid, cdMs, app, now).AttributeError? <==> !Resolve(b, app, gid.value).JObj?)
    ensures var d := Dispatched(b, f, last, gid, cdMs, app, now);
      Bound(b, gid, app) && Resolve(b, app, gid.value).JObj?
      && !IsToggle(Resolve(b, app, gid.value)) && !f.executionEnabled ==>
        d == Outcome(Some(Blocked), f, last, NoEffect)
    ensures var d := Dispatched(b, f, last, gid, cdMs, app, now);
      Bound(b, gid, app) && Resolve(b, app, gid.value).JObj?
      && (IsToggle(Resolve(b, app, gid.value)) || f.executionEnabled)
      && !CooldownPasses(last, gid.value, cdMs, now) ==>
        d == Outcome(None, f, last, NoEffect)
    ensures var d := Dispatched(b, f, last, gid, cdMs, app, now);
      d.Outcome? && d.result.None? ==> d.flags == f && d.last == last && d.effect == NoEffect
  {
  }

  /**
   * A bound dict action that is a toggle or meets enabled execution, and
   * whose cooldown passed, is performed and returned, and only its own id's
   * timestamp moves, to `now`; conversely, an action is returned only then.
   */
  lemma DispatchFires(b: Bindings, f: Flags, last: map<string, real>, gid: Option<string>,
                      cdMs: int, app: Option<string>, now: real)
    ensures Bound(b, gid, app) ==>
      var d := Dispatched(b, f, last, gid, cdMs, app, now);
      var action := Resolve(b, app, gid.value);
      action.JObj? && (IsToggle(action) || f.executionEnabled) && CooldownPasses(last, gid.value, cdMs, now) ==>
        d == Outcome(Some(action), Applied(f, action), last[gid.value := now], EffectOf(f, action))
    ensures var d := Dispatched(b, f, last, gid, cdMs, app, now);
      d.Outcome? && d.result.Some? && d.result != Some(Blocked) ==>
        gid.Some? && d.result.value == Resolve(b, app, gid.value)
        && d.result.value.JObj? && CooldownPasses(last, gid.value, cdMs, now)
        && d.flags == Applied(f, d.result.value)
        && d.effect == EffectOf(f, d.result.value)
        && d.last.Keys == last.Keys + {gid.value} && d.last[gid.value] == now
        && (forall k :: k in last && k != gid.value ==> d.last[k] == last[k])
    ensures var d := Dispatched(b, f, last, gid, cdMs, app, now);
      d.Outcome? && d.last != last ==>
        gid.Some? && d.result == Some(Resolve(b, app, gid.value)) && d.last == last[gid.value := now]
  {
  }

  class Dispatcher {
    const bindings: Bindings
    const state: SystemState
    /** `_last_fire`: the last firing time per gesture id, in milliseconds. */
    var lastFire: map<string, real>

    constructor (bindings: Bindings, state: SystemState)
      ensures this.bindings == bindings && this.state == state && lastFire == map[]
    {
      this.bindings := bindings;
      this.state := state;
      lastFire := map[];
    }

    /** `_cooldown_ok`: passes, and records `now`, when at least `cdMs` elapsed. */
    method CooldownOk(key: string, cdMs: int, now: real) returns (ok: bool)
      modifies this
      ensures ok == CooldownPasses(old(lastFire), key, cdMs, now)
      ensures lastFire == if ok then old(lastFire)[key := now] else old(lastFire)
    {
      var last := if key in lastFire then lastFire[key] else 0.0;
      if now - last >= cdMs as real {
        lastFire := lastFire[key := now];
        return true;
      }
      return false;
    }

    /**
     * `dispatch`, returning the reply and what was sent to the operating
     * system, or `raised` when reading the bound value's `type` raises.
     */
    method Dispatch(gid: Option<string>, cdMs: int, app: Option<string>, now: real)
      returns (raised: bool, r: Option<Json>, e: Effect)
      modifies this, state
      ensures var d := Dispatched(bindings, old(state.View()), old(lastFire), gid, cdMs, app, now);
        && (raised <==> d.AttributeError?)
        && (d.AttributeError? ==> state.View() == old(state.View()) && lastFire == old(lastFire) && e == NoEffect)
        && (d.Outcome? ==> r == d.result && state.View() == d.flags && lastFire == d.last && e == d.effect)
    {
      raised := false;
      if gid.None? || gid.value == "" {
        return false, None, NoEffect;
      }
      var action := Resolve(bindings, app, gid.value);
      if !Truthy(action) {
        return false, None, NoEffect;
      }
      if !action.JObj? {
        return true, None, NoEffect;
      }
      var isToggle := ToggledFlag(ActionType(action)).Some?;
      if !isToggle && !state.executionEnabled {
        return false, Some(Blocked), NoEffect;
      }
      var ok := CooldownOk(gid.value, cdMs, now);
      if !ok {
        return false, None, NoEffect;
      }
      e := DoAction(action, state);
      r := Some(action);
    }
  }
}

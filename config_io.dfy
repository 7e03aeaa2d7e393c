/**
 * Combining the user's configuration file with the factory defaults: the
 * `general` section is filled in key by key, every other section is taken
 * whole from the user when present, and the bindings skeleton and the list
 * sections are guaranteed afterwards.
 */
module ConfigMerge {
  import opened Wrappers
  import opened JsonValues

  /** The factory `general` section, in its order. */
  const DefaultGeneral: Entries := [
    ("camera_index", JInt(0)), ("camera_width", JInt(640)), ("camera_height", JInt(480)),
    ("camera_fps", JInt(30)),
    ("mirror_camera", JBool(true)), ("show_camera_preview", JBool(true)), ("osd_enabled", JBool(true)),
    ("recognition_enabled", JBool(true)), ("execution_enabled", JBool(true)),
    ("mouse_move_output_enabled", JBool(true)),
    ("infer_scale", JFloat(0.6)), ("ui_fps", JInt(24)), ("infer_fps", JInt(12)),
    ("stable_frames", JInt(3)), ("cooldown_ms", JInt(450)),
    ("mouse_smoothing", JFloat(0.35)), ("mouse_sensitivity", JFloat(1.0)), ("mouse_deadzone_px", JInt(2)),
    ("pinch_threshold_ratio", JFloat(0.33)), ("two_finger_close_ratio", JFloat(0.22)),
    ("scroll_gain", JFloat(1.6)), ("scroll_deadzone_px", JInt(6)), ("scroll_max_step", JInt(120)),
    ("dynamic_window_ms", JInt(450)), ("swipe_thresh_px", JInt(80))]

  /**
   * The shape of the factory configuration the merge relies on: the two
   * catalogs as lists and the bindings as a dict holding `global` and
   * `per_app`, after `general`, and no other top-level key (in particular
   * no `glove` and no `custom_gestures`). The catalogs' contents are not
   * modelled.
   */
  predicate HasDefaultShape(d: Entries) {
    Keys(d) == ["general", "gesture_catalog", "action_catalog", "bindings"]
    && Get(d, "gesture_catalog").Some? && Get(d, "gesture_catalog").value.JList?
    && Get(d, "action_catalog").Some? && Get(d, "action_catalog").value.JList?
    && Get(d, "bindings").Some? && Get(d, "bindings").value.JObj?
    && "global" in Keys(Get(d, "bindings").value.entries)
    && "per_app" in Keys(Get(d, "bindings").value.entries)
  }

  /** The factory configuration: that shape, with `general` as above. */
  predicate IsDefaultConfig(d: Entries) {
    HasDefaultShape(d) && Get(d, "general") == Some(JObj(DefaultGeneral))
  }

  /** What the merge needs of the defaults: the bindings are a dict, and there is no `custom_gestures` and no `glove`. */
  predicate MergeReady(d: Entries) {
    Get(d, "bindings").Some? && Get(d, "bindings").value.JObj?
    && Get(d, "custom_gestures").None? && Get(d, "glove").None?
  }

  /** The sections taken whole from the user when present. */
  const SectionKeys: seq<string> := ["gesture_catalog", "action_catalog", "bindings", "glove", "custom_gestures"]

  // ---------------------------------------------------------------------
  // _merge_general

  /** `_merge_general`: a copy of the defaults updated with the user's dict; a user value that is not a dict is ignored. */
  function MergeGeneral(defaults: Entries, user: Json): Entries {
    if user.JObj? then Update(defaults, user.entries) else defaults
  }

  /**
   * Every default key is present; a key the user sets has the user's value;
   * a key only the user has is kept; a non-dict user value yields the
   * defaults unchanged.
   */
  lemma MergeGeneralProperties(defaults: Entries, user: Json, k: string)
    requires user.JObj? ==> DistinctKeys(user.entries)
    ensures !user.JObj? ==> MergeGeneral(defaults, user) == defaults
    ensures user.JObj? && k in Keys(user.entries) ==> Get(MergeGeneral(defaults, user), k) == Get(user.entries, k)
    ensures !(user.JObj? && k in Keys(user.entries)) ==> Get(MergeGeneral(defaults, user), k) == Get(defaults, k)
    ensures k in Keys(defaults) ==> Get(MergeGeneral(defaults, user), k).Some?
    ensures DistinctKeys(defaults) ==> DistinctKeys(MergeGeneral(defaults, user))
  {
    if user.JObj? {
      UpdateGet(defaults, user.entries, k);
      if DistinctKeys(defaults) {
        UpdateDistinct(defaults, user.entries);
      }
    }
  }

  // ---------------------------------------------------------------------
  // load_config, in-memory part

  /** `DEFAULT_CONFIG.get("general", {})`. */
  function DefaultGeneralOf(defaults: Entries): Entries {
    var g := Get(defaults, "general");
    if g.Some? && g.value.JObj? then g.value.entries else []
  }

  /** `cfg["general"] = _merge_general(DEFAULT_CONFIG.get("general", {}), user.get("general", {}))`. */
  function GeneralStart(defaults: Entries, user: Entries): Entries {
    var ug := Get(user, "general");
    [("general", JObj(MergeGeneral(DefaultGeneralOf(defaults), if ug.Some? then ug.value else JObj([]))))]
  }

  /** `d.setdefault(k, v)`: adds `k` only when absent. */
  function SetDefault(e: Entries, k: string, v: Json): Entries {
    if k in Keys(e) then e else e + [(k, v)]
  }

  /**
   * The closing `setdefault` calls. `None` when `cfg["bindings"]` is not a
   * dict: `setdefault` on it raises. A missing `bindings` key is added as an
   * empty dict, which the skeleton then fills.
   */
  function Finish(cfg: Entries): Option<Entries> {
    var b := match Get(cfg, "bindings") case Some(v) => v case None => JObj([]);
    if !b.JObj? then None
    else
      var c2 := Put(cfg, "bindings", JObj(Skeleton(b.entries)));
      Some(SetDefault(SetDefault(SetDefault(c2, "gesture_catalog", JList([])),
                                 "action_catalog", JList([])),
                      "custom_gestures", JList([])))
  }

  /** The bindings after `setdefault("global", {})` and `setdefault("per_app", {})`. */
  function Skeleton(b: Entries): Entries {
    SetDefault(SetDefault(b, "global", JObj([])), "per_app", JObj([]))
  }

  /** As written: the user's section, else `deepcopy(DEFAULT_CONFIG.get(key))`, which is null for a key the defaults lack. */
  function SectionAsWritten(defaults: Entries, user: Entries, key: string): Json {
    var u := Get(user, key);
    var d := Get(defaults, key);
    if u.Some? then u.value else if d.Some? then d.value else JNull
  }

  function FillAsWritten(cfg: Entries, keys: seq<string>, defaults: Entries, user: Entries): Entries {
    if |keys| == 0 then cfg
    else
      var key := keys[|keys| - 1];
      Put(FillAsWritten(cfg, keys[..|keys| - 1], defaults, user), key, SectionAsWritten(defaults, user, key))
  }

  /** `load_config` after reading the file, as written. `None` when it raises. */
  function LoadMergeAsWritten(defaults: Entries, user: Entries): Option<Entries> {
    Finish(FillAsWritten(GeneralStart(defaults, user), SectionKeys, defaults, user))
  }

  /** Corrected: a section neither side has is left unset, so the closing `setdefault` supplies it. */
  function Section(defaults: Entries, user: Entries, key: string): Option<Json> {
    var u := Get(user, key);
    if u.Some? then u else Get(defaults, key)
  }

  function Fill(cfg: Entries, keys: seq<string>, defaults: Entries, user: Entries): Entries {
    if |keys| == 0 then cfg
    else
      var key := keys[|keys| - 1];
      var prev := Fill(cfg, keys[..|keys| - 1], defaults, user);
      var v := Section(defaults, user, key);
      if v.Some? then Put(prev, key, v.value) else prev
  }

  /** `load_config` after reading the file, corrected. `None` when it raises. */
  function LoadMerge(defaults: Entries, user: Entries): Option<Entries> {
    Finish(Fill(GeneralStart(defaults, user), SectionKeys, defaults, user))
  }

  // ---------------------------------------------------------------------
  // Lemmas

  lemma {:induction false} FillAsWrittenGet(cfg: Entries, keys: seq<string>, defaults: Entries, user: Entries, k: string)
    ensures Get(FillAsWritten(cfg, keys, defaults, user), k)
      == if k in keys then Some(SectionAsWritten(defaults, user, k)) else Get(cfg, k)
  {
    if |keys| > 0 {
      var init := keys[..|keys| - 1];
      var key := keys[|keys| - 1];
      assert keys == init + [key];
      FillAsWrittenGet(cfg, init, defaults, user, k);
      PutGet(FillAsWritten(cfg, init, defaults, user), key, SectionAsWritten(defaults, user, key));
    }
  }

  lemma {:induction false} FillGet(cfg: Entries, keys: seq<string>, defaults: Entries, user: Entries, k: string)
    ensures Get(Fill(cfg, keys, defaults, user), k)
      == if k in keys && Section(defaults, user, k).Some? then Section(defaults, user, k) else Get(cfg, k)
  {
    if |keys| > 0 {
      var init := keys[..|keys| - 1];
      var key := keys[|keys| - 1];
      assert keys == init + [key];
      FillGet(cfg, init, defaults, user, k);
      var v := Section(defaults, user, key);
      if v.Some? {
        PutGet(Fill(cfg, init, defaults, user), key, v.value);
      }
    }
  }

  lemma SetDefaultGet(e: Entries, k: string, v: Json, k': string)
    ensures Get(SetDefault(e, k, v), k') == if k' == k && k !in Keys(e) then Some(v) else Get(e, k')
  {
    if k !in Keys(e) {
      AppendGet(e, (k, v), k');
    }
  }

  lemma {:induction false} AppendGet(e: Entries, x: (string, Json), k: string)
    ensures Get(e + [x], k) == if k in Keys(e) then Get(e, k) else if x.0 == k then Some(x.1) else None
  {
    if |e| > 0 {
      assert (e + [x])[1..] == e[1..] + [x];
      AppendGet(e[1..], x, k);
    }
  }

  /** The skeleton holds `global` and `per_app` and keeps every existing entry. */
  lemma SkeletonProperties(b: Entries, k: string)
    ensures Get(Skeleton(b), "global").Some? && Get(Skeleton(b), "per_app").Some?
    ensures k in Keys(b) ==> Get(Skeleton(b), k) == Get(b, k)
  {
    SetDefaultGet(b, "global", JObj([]), k);
    SetDefaultGet(b, "global", JObj([]), "global");
    SetDefaultGet(b, "global", JObj([]), "per_app");
    var b1 := SetDefault(b, "global", JObj([]));
    SetDefaultGet(b1, "per_app", JObj([]), k);
    SetDefaultGet(b1, "per_app", JObj([]), "global");
    SetDefaultGet(b1, "per_app", JObj([]), "per_app");
  }

  /**
   * What the closing calls guarantee: they fail exactly when the bindings
   * value is not a dict; otherwise the bindings hold the skeleton, and any
   * other key keeps its value or, for the three list sections, is an empty
   * list when it was absent.
   */
  lemma FinishProperties(cfg: Entries, k: string)
    requires "bindings" in Keys(cfg)
    ensures Finish(cfg).Some? <==> Get(cfg, "bindings").value.JObj?
    ensures Finish(cfg).Some? ==>
      Get(Finish(cfg).value, "bindings") == Some(JObj(Skeleton(Get(cfg, "bindings").value.entries)))
    ensures Finish(cfg).Some? && k != "bindings" && k in Keys(cfg) ==> Get(Finish(cfg).value, k) == Get(cfg, k)
    ensures Finish(cfg).Some? && k in {"gesture_catalog", "action_catalog", "custom_gestures"} && k !in Keys(cfg) ==>
      Get(Finish(cfg).value, k) == Some(JList([]))
    ensures Finish(cfg).Some? && k !in {"bindings", "gesture_catalog", "action_catalog", "custom_gestures"} && k !in Keys(cfg) ==>
      Get(Finish(cfg).value, k).None?
  {
    var b := Get(cfg, "bindings").value;
    if b.JObj? {
      var b2 := Skeleton(b.entries);
      var c2 := Put(cfg, "bindings", JObj(b2));
      PutGet(cfg, "bindings", JObj(b2));
      PutKeys(cfg, "bindings", JObj(b2));
      var c3 := SetDefault(c2, "gesture_catalog", JList([]));
      var c4 := SetDefault(c3, "action_catalog", JList([]));
      SetDefaultGet(c2, "gesture_catalog", JList([]), k);
      SetDefaultGet(c3, "action_catalog", JList([]), k);
      SetDefaultGet(c4, "custom_gestures", JList([]), k);
      SetDefaultGet(c2, "gesture_catalog", JList([]), "bindings");
      SetDefaultGet(c3, "action_catalog", JList([]), "bindings");
      SetDefaultGet(c4, "custom_gestures", JList([]), "bindings");
      SetDefaultGet(c2, "gesture_catalog", JList([]), "action_catalog");
      SetDefaultGet(c2, "gesture_catalog", JList([]), "custom_gestures");
      SetDefaultGet(c3, "action_catalog", JList([]), "custom_gestures");
    }
  }

  /**
   * As written, a configuration whose file holds an empty object ends with
   * `custom_gestures` (and `glove`) null: the loop stores
   * `DEFAULT_CONFIG.get(key)` for keys the defaults lack, so the closing
   * `setdefault("custom_gestures", [])` finds the key present and does nothing.
   */
  lemma CustomGesturesNullAsWritten(defaults: Entries)
    requires MergeReady(defaults)
    ensures LoadMergeAsWritten(defaults, []).Some?
    ensures Get(LoadMergeAsWritten(defaults, []).value, "custom_gestures") == Some(JNull)
    ensures Get(LoadMergeAsWritten(defaults, []).value, "glove") == Some(JNull)
  {
    var start := GeneralStart(defaults, []);
    var cfg := FillAsWritten(start, SectionKeys, defaults, []);
    assert SectionAsWritten(defaults, [], "bindings") == Get(defaults, "bindings").value;
    assert SectionAsWritten(defaults, [], "custom_gestures") == JNull;
    assert SectionAsWritten(defaults, [], "glove") == JNull;
    FillAsWrittenGet(start, SectionKeys, defaults, [], "bindings");
    FillAsWrittenGet(start, SectionKeys, defaults, [], "custom_gestures");
    FillAsWrittenGet(start, SectionKeys, defaults, [], "glove");
    FinishProperties(cfg, "custom_gestures");
    FinishProperties(cfg, "glove");
  }

  /** The filled configuration before the closing calls, corrected. */
  function Filled(defaults: Entries, user: Entries): Entries {
    Fill(GeneralStart(defaults, user), SectionKeys, defaults, user)
  }

  lemma FilledGet(defaults: Entries, user: Entries, k: string)
    ensures k == "general" ==> Get(Filled(defaults, user), k) == Some(GeneralStart(defaults, user)[0].1)
    ensures k in SectionKeys ==> Get(Filled(defaults, user), k) == Section(defaults, user, k)
    ensures k != "general" && k !in SectionKeys ==> Get(Filled(defaults, user), k).None?
  {
    FillGet(GeneralStart(defaults, user), SectionKeys, defaults, user, k);
  }

  /** Corrected: the merge fails exactly when the user's bindings value is present and not a dict. */
  lemma LoadMergeFails(defaults: Entries, user: Entries)
    requires MergeReady(defaults)
    ensures LoadMerge(defaults, user).None? <==>
      Get(user, "bindings").Some? && !Get(user, "bindings").value.JObj?
  {
    FilledGet(defaults, user, "bindings");
    FinishProperties(Filled(defaults, user), "bindings");
  }

  /** Corrected: `general` is the merged section, and a section the user's file has is taken from it whole. */
  lemma LoadMergeSections(defaults: Entries, user: Entries, k: string)
    requires MergeReady(defaults)
    requires LoadMerge(defaults, user).Some?
    ensures var cfg := LoadMerge(defaults, user).value;
      (k == "general" ==> Get(cfg, k) == Some(GeneralStart(defaults, user)[0].1))
      && (k in SectionKeys && k != "bindings" && Get(user, k).Some? ==> Get(cfg, k) == Get(user, k))
  {
    FilledGet(defaults, user, "bindings");
    FilledGet(defaults, user, k);
    FinishProperties(Filled(defaults, user), k);
  }

  /** Corrected: a catalog the user's file lacks is the default's, or an empty list when the defaults lack it too. */
  lemma LoadMergeCatalogs(defaults: Entries, user: Entries, k: string)
    requires MergeReady(defaults)
    requires LoadMerge(defaults, user).Some?
    requires k in {"gesture_catalog", "action_catalog"} && Get(user, k).None?
    ensures Get(LoadMerge(defaults, user).value, k) ==
      if Get(defaults, k).Some? then Get(defaults, k) else Some(JList([]))
  {
    FilledGet(defaults, user, "bindings");
    FilledGet(defaults, user, k);
    FinishProperties(Filled(defaults, user), k);
  }

  /** The factory configuration has no `custom_gestures` and no `glove`, so it is ready for the merge. */
  lemma DefaultConfigLacks(defaults: Entries)
    requires HasDefaultShape(defaults)
    ensures MergeReady(defaults)
  {
    assert "custom_gestures" !in Keys(defaults) && "glove" !in Keys(defaults);
  }

  /** Corrected: `custom_gestures` is an empty list when neither side has it. */
  lemma LoadMergeCustomGestures(defaults: Entries, user: Entries)
    requires MergeReady(defaults)
    requires LoadMerge(defaults, user).Some?
    ensures Get(user, "custom_gestures").None? ==>
      Get(LoadMerge(defaults, user).value, "custom_gestures") == Some(JList([]))
  {
    FilledGet(defaults, user, "bindings");
    FilledGet(defaults, user, "custom_gestures");
    FinishProperties(Filled(defaults, user), "custom_gestures");
  }

  /** Corrected: `glove` stays absent when neither side has it. */
  lemma LoadMergeGlove(defaults: Entries, user: Entries)
    requires MergeReady(defaults)
    requires LoadMerge(defaults, user).Some?
    ensures Get(user, "glove").None? ==> Get(LoadMerge(defaults, user).value, "glove").None?
  {
    FilledGet(defaults, user, "bindings");
    FilledGet(defaults, user, "glove");
    FinishProperties(Filled(defaults, user), "glove");
  }

  /** Every default `general` setting is present after loading, whatever the user's file holds. */
  lemma LoadMergeGeneralComplete(defaults: Entries, user: Entries, k: string)
    requires k in Keys(DefaultGeneralOf(defaults))
    ensures GeneralStart(defaults, user)[0].1.JObj?
    ensures Get(GeneralStart(defaults, user)[0].1.entries, k).Some?
  {
    var ug := Get(user, "general");
    var u := if ug.Some? then ug.value else JObj([]);
    if u.JObj? {
      UpdateKeys(DefaultGeneralOf(defaults), u.entries, k);
    }
  }

  /**
   * Corrected: the bindings are the user's dict, else the default's, with
   * `global` and `per_app` present and every existing entry kept.
   */
  lemma LoadMergeBindings(defaults: Entries, user: Entries, k: string)
    requires MergeReady(defaults)
    requires LoadMerge(defaults, user).Some?
    ensures var src := if Get(user, "bindings").Some? then Get(user, "bindings").value else Get(defaults, "bindings").value;
      src.JObj?
      && Get(LoadMerge(defaults, user).value, "bindings") == Some(JObj(Skeleton(src.entries)))
      && Get(Skeleton(src.entries), "global").Some? && Get(Skeleton(src.entries), "per_app").Some?
      && (k in Keys(src.entries) ==> Get(Skeleton(src.entries), k) == Get(src.entries, k))
  {
    FilledGet(defaults, user, "bindings");
    FinishProperties(Filled(defaults, user), "bindings");
    var src := if Get(user, "bindings").Some? then Get(user, "bindings").value else Get(defaults, "bindings").value;
    SkeletonProperties(src.entries, k);
  }

  /** `load_config`'s key loop and closing calls, corrected. */
  method LoadConfigMerge(defaults: Entries, user: Entries) returns (r: Option<Entries>)
    ensures r == LoadMerge(defaults, user)
  {
    var cfg := GeneralStart(defaults, user);
    var i := 0;
    while i < |SectionKeys|
      invariant 0 <= i <= |SectionKeys|
      invariant cfg == Fill(GeneralStart(defaults, user), SectionKeys[..i], defaults, user)
    {
      var key := SectionKeys[i];
      assert SectionKeys[..i + 1][..i] == SectionKeys[..i];
      var u := Get(user, key);
      if u.Some? {
        cfg := Put(cfg, key, u.value);
      } else {
        var d := Get(defaults, key);
        if d.Some? {
          cfg := Put(cfg, key, d.value);
        }
      }
      i := i + 1;
    }
    assert SectionKeys[..i] == SectionKeys;
    r := Finish(cfg);
  }
}

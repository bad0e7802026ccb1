/**
 * The settings resolver of the timeline visual (src/visual.ts, `getValue` and the
 * settings half of `visualTransform`).  Persisted values are dynamic: TypeScript's
 * `<T>` cast checks nothing, so a leaf holds whatever the host stored.
 */
module Settings {
  import opened Wrappers

  /** A value the host may have persisted for a format-pane property. */
  datatype JsValue = Null | Bool(b: bool) | Num(n: int) | Str(s: string) | Fill(color: string)

  /** The properties of one object; a key that is absent reads as `undefined`. */
  type PropertyBag = map<string, JsValue>

  /** `dataViews[0].metadata.objects`; `None` at either level is `null` or `undefined`. */
  type Objects = Option<map<string, Option<PropertyBag>>>

  /** True when `objects[objectName][propertyName]` is reachable and not `undefined`. */
  predicate Defined(objects: Objects, objectName: string, propertyName: string) {
    && objects.Some?
    && objectName in objects.value
    && objects.value[objectName].Some?
    && propertyName in objects.value[objectName].value
  }

  /** Two-level optional lookup with a default, as `getValue` does it. */
  function GetValue(objects: Objects, objectName: string, propertyName: string, defaultValue: JsValue): JsValue {
    if objects.Some? then
      var all := objects.value;
      if objectName in all && all[objectName].Some? then
        var bag := all[objectName].value;
        if propertyName in bag then bag[propertyName] else defaultValue
      else defaultValue
    else defaultValue
  }

  lemma GetValueIsStoredOrDefault(objects: Objects, objectName: string, propertyName: string, defaultValue: JsValue)
    ensures Defined(objects, objectName, propertyName) ==>
              GetValue(objects, objectName, propertyName, defaultValue) == objects.value[objectName].value[propertyName]
    ensures !Defined(objects, objectName, propertyName) ==>
              GetValue(objects, objectName, propertyName, defaultValue) == defaultValue
    // a stored `null` is returned as it is, not replaced by the default
    ensures Defined(objects, objectName, propertyName) && objects.value[objectName].value[propertyName] == Null ==>
              GetValue(objects, objectName, propertyName, defaultValue) == Null
  {
  }

  datatype TransitionSettings = TransitionSettings(autoStart: JsValue, loop: JsValue, timeInterval: JsValue)
  datatype ColorSelector = ColorSelector(pickedColor: JsValue, showAll: JsValue, playColor: JsValue, pauseColor: JsValue,
                                         stopColor: JsValue, previousColor: JsValue, nextColor: JsValue)
  datatype CaptionSettings = CaptionSettings(show: JsValue, captionColor: JsValue, fontSize: JsValue, align: JsValue)
  datatype VisualSettings = VisualSettings(transition: TransitionSettings, colorSelector: ColorSelector, caption: CaptionSettings)

  /** The fixed default table of `visualTransform`. */
  const DefaultSettings := VisualSettings(
    TransitionSettings(Bool(false), Bool(false), Num(2000)),
    ColorSelector(Fill("#000000"), Bool(false), Fill("#f2c811"), Fill("#1769b8"),
                  Fill("#f42550"), Fill("#12b159"), Fill("#a81de8")),
    CaptionSettings(Bool(true), Fill("#000000"), Num(16), Str("left")))

  /** Every leaf of the settings, filled from the persisted objects or the default table. */
  function ResolveSettings(objects: Objects): VisualSettings {
    var d := DefaultSettings;
    VisualSettings(
      TransitionSettings(
        GetValue(objects, "transitionSettings", "autoStart", d.transition.autoStart),
        GetValue(objects, "transitionSettings", "loop", d.transition.loop),
        GetValue(objects, "transitionSettings", "timeInterval", d.transition.timeInterval)),
      ColorSelector(
        GetValue(objects, "colorSelector", "pickedColor", d.colorSelector.pickedColor),
        GetValue(objects, "colorSelector", "showAll", d.colorSelector.showAll),
        GetValue(objects, "colorSelector", "playColor", d.colorSelector.playColor),
        GetValue(objects, "colorSelector", "pauseColor", d.colorSelector.pauseColor),
        GetValue(objects, "colorSelector", "stopColor", d.colorSelector.stopColor),
        GetValue(objects, "colorSelector", "previousColor", d.colorSelector.previousColor),
        GetValue(objects, "colorSelector", "nextColor", d.colorSelector.nextColor)),
      CaptionSettings(
        GetValue(objects, "captionSettings", "show", d.caption.show),
        GetValue(objects, "captionSettings", "captionColor", d.caption.captionColor),
        GetValue(objects, "captionSettings", "fontSize", d.caption.fontSize),
        GetValue(objects, "captionSettings", "align", d.caption.align)))
  }

  /** The leaf of `s` named by an object name and a property name, if the schema has one. */
  function Leaf(s: VisualSettings, objectName: string, propertyName: string): Option<JsValue> {
    if objectName == "transitionSettings" then
      if propertyName == "autoStart" then Some(s.transition.autoStart)
      else if propertyName == "loop" then Some(s.transition.loop)
      else if propertyName == "timeInterval" then Some(s.transition.timeInterval)
      else None
    else if objectName == "colorSelector" then
      if propertyName == "pickedColor" then Some(s.colorSelector.pickedColor)
      else if propertyName == "showAll" then Some(s.colorSelector.showAll)
      else if propertyName == "playColor" then Some(s.colorSelector.playColor)
      else if propertyName == "pauseColor" then Some(s.colorSelector.pauseColor)
      else if propertyName == "stopColor" then Some(s.colorSelector.stopColor)
      else if propertyName == "previousColor" then Some(s.colorSelector.previousColor)
      else if propertyName == "nextColor" then Some(s.colorSelector.nextColor)
      else None
    else if objectName == "captionSettings" then
      if propertyName == "show" then Some(s.caption.show)
      else if propertyName == "captionColor" then Some(s.caption.captionColor)
      else if propertyName == "fontSize" then Some(s.caption.fontSize)
      else if propertyName == "align" then Some(s.caption.align)
      else None
    else None
  }

  /** A leaf that the host persisted explicitly wins over the default, whatever its shape. */
  lemma PersistedLeafOverrides(objects: Objects, objectName: string, propertyName: string)
    requires Leaf(DefaultSettings, objectName, propertyName).Some?
    requires Defined(objects, objectName, propertyName)
    ensures Leaf(ResolveSettings(objects), objectName, propertyName) == Some(objects.value[objectName].value[propertyName])
  {
  }

  /** A leaf that is not persisted (absent object, `null` object, absent property) takes its default. */
  lemma UndefinedLeafDefaults(objects: Objects, objectName: string, propertyName: string)
    requires !Defined(objects, objectName, propertyName)
    ensures Leaf(ResolveSettings(objects), objectName, propertyName) == Leaf(DefaultSettings, objectName, propertyName)
  {
  }

  /** With nothing persisted, the resolver yields exactly the default table. */
  lemma NothingPersistedYieldsDefaults(objects: Objects)
    requires forall g, p :: !Defined(objects, g, p)
    ensures ResolveSettings(objects) == DefaultSettings
    ensures DefaultSettings.transition == TransitionSettings(Bool(false), Bool(false), Num(2000))
    ensures DefaultSettings.caption.show == Bool(true) && DefaultSettings.caption.fontSize == Num(16)
    ensures DefaultSettings.caption.align == Str("left") && DefaultSettings.colorSelector.showAll == Bool(false)
  {
    assert !Defined(objects, "transitionSettings", "autoStart") && !Defined(objects, "transitionSettings", "loop");
    assert !Defined(objects, "transitionSettings", "timeInterval");
    assert !Defined(objects, "colorSelector", "pickedColor") && !Defined(objects, "colorSelector", "showAll");
    assert !Defined(objects, "colorSelector", "playColor") && !Defined(objects, "colorSelector", "pauseColor");
    assert !Defined(objects, "colorSelector", "stopColor") && !Defined(objects, "colorSelector", "previousColor");
    assert !Defined(objects, "colorSelector", "nextColor");
    assert !Defined(objects, "captionSettings", "show") && !Defined(objects, "captionSettings", "captionColor");
    assert !Defined(objects, "captionSettings", "fontSize") && !Defined(objects, "captionSettings", "align");
  }

  /** JavaScript truthiness of a persisted value, used by `if (settings.x)` tests. */
  function Truthy(v: JsValue): bool {
    match v
    case Null => false
    case Bool(b) => b
    case Num(n) => n != 0
    case Str(s) => s != ""
    case Fill(_) => true
  }

  /**
   * The factor `timeInterval` contributes to `(k) * timeInterval` once the product reaches
   * `setTimeout`: a number is itself, `null` and `false` are 0, `true` is 1, and a value whose
   * product is NaN gives delay 0.
   */
  function IntervalMs(v: JsValue): int {
    match v
    case Num(n) => n
    case Bool(b) => if b then 1 else 0
    case _ => 0
  }
}

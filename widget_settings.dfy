/**
 * The settings of the picker widget: the plugin's defaults, shallowly
 * overridden by the options the page passes (`methods.init`).
 */
module WidgetSettings {
  import opened Wrappers

  /** A JavaScript value as far as the settings use it. */
  datatype JsValue = Undefined | Str(s: string) | Bool(b: bool)

  type Settings = map<string, JsValue>

  /** JavaScript truthiness of a settings value. */
  predicate Truthy(v: JsValue) {
    match v
    case Undefined => false
    case Str(s) => s != ""
    case Bool(b) => b
  }

  /** A setting, `undefined` when it is not there. */
  function Get(settings: Settings, key: string): JsValue {
    if key in settings then settings[key] else Undefined
  }

  /** The plugin's own configuration, selectors and sources. */
  const Defaults: Settings := map[
    "color" := Str("#ffaaaa"),
    "elements" := Str(".listbox"),
    "item" := Str("fieldset"),
    "multiple" := Bool(false),
    "addbutton" := Str(".add-button"),
    "editbutton" := Str(".edit-button"),
    "removebutton" := Str(".remove-button"),
    "linkurl" := Str(".link-url"),
    "linklabel" := Str(".link-label"),
    "modal" := Str("find-posts"),
    "overlay" := Str(".ui-find-overlay"),
    "source" := Str("template-id")
  ]

  /** `$.extend(target, options)`, not deep: every option that is not
      `undefined` replaces the target's value, the rest is kept. */
  function Extend(target: Settings, options: Settings): (r: Settings)
    ensures forall k :: k in r <==> k in target || (k in options && options[k] != Undefined)
    ensures forall k :: k in options && options[k] != Undefined ==> r[k] == options[k]
    ensures forall k :: k in target && (k !in options || options[k] == Undefined) ==> r[k] == target[k]
  {
    map k | k in target.Keys + options.Keys && (k in target || options[k] != Undefined) ::
      if k in options && options[k] != Undefined then options[k] else target[k]
  }

  /** Extending twice with the same options is extending once. */
  lemma ExtendIdempotent(target: Settings, options: Settings)
    ensures Extend(Extend(target, options), options) == Extend(target, options)
  {
    var once := Extend(target, options);
    var twice := Extend(once, options);
    assert forall k :: k in twice <==> k in once;
    forall k | k in once ensures twice[k] == once[k] {
    }
  }

  /** The settings every widget is built with: the defaults, overridden by
      the options when some are given. */
  function InitSettings(options: Option<Settings>): Settings {
    match options
    case None => Defaults
    case Some(o) => Extend(Defaults, o)
  }

  /** An option that is absent or `undefined` keeps its default; a default
      is never lost. */
  lemma AbsentOptionKeepsDefault(options: Option<Settings>, k: string)
    requires k in Defaults
    requires options.None? || k !in options.value || options.value[k] == Undefined
    ensures k in InitSettings(options) && InitSettings(options)[k] == Defaults[k]
  {
  }

  /** `methods.init(options)` on a selection of `elements` nodes: nothing
      (`false`) for an empty selection, otherwise the settings each widget
      is constructed with, in order. The one settings object is extended
      again for every element; extension is idempotent, so every widget
      sees the same settings. */
  method Init(elements: nat, options: Option<Settings>) returns (r: Option<seq<Settings>>)
    ensures r.None? <==> elements == 0
    ensures r.Some? ==> |r.value| == elements
    ensures r.Some? ==> forall i :: 0 <= i < elements ==> r.value[i] == InitSettings(options)
  {
    if elements == 0 {
      return None;
    }
    var settings := Defaults;
    var built: seq<Settings> := [];
    var i := 0;
    while i < elements
      invariant 0 <= i <= elements && |built| == i
      invariant i == 0 ==> settings == Defaults
      invariant i > 0 ==> settings == InitSettings(options)
      invariant forall j :: 0 <= j < i ==> built[j] == InitSettings(options)
    {
      if options.Some? {
        if i > 0 {
          ExtendIdempotent(Defaults, options.value);
        }
        settings := Extend(settings, options.value);
      }
      built := built + [settings];
      i := i + 1;
    }
    return Some(built);
  }
}

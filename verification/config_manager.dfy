/** `ConfigManager` (utils/config_manager.py): the in-memory configuration,
    a two-level mapping from section names to option names to JSON values,
    with the built-in defaults, the recursive merge of a loaded file into
    them, and guarded lookup and update. */
module ConfigManager {
  import opened Base

  /** A JSON value as `json.load` produces it. */
  datatype Json =
    | JInt(i: int)
    | JReal(r: real)
    | JStr(s: string)
    | JBool(b: bool)
    | JNull
    | JList(items: seq<Json>)
    | JDict(entries: map<string, Json>)

  /** The configuration dictionary: section name to section value. */
  type Config = map<string, Json>

  const Sections: set<string> := {"window", "renderer", "view", "paths", "backend", "editor"}

  function Vector(a: int, b: int, c: int): Json
  {
    JList([JInt(a), JInt(b), JInt(c)])
  }

  /** `_get_default_config`. */
  function DefaultConfig(): (c: Config)
    ensures c.Keys == Sections
    ensures forall s :: s in c ==> c[s].JDict?
  {
    map[
      "window" := JDict(map["width" := JInt(1200), "height" := JInt(800), "title" := JStr("Hair Ezclick")]),
      "renderer" := JDict(map["width" := JInt(800), "height" := JInt(600),
                              "background_color" := Vector(1, 1, 1), "point_size" := JReal(2.0)]),
      "view" := JDict(map["zoom" := JReal(0.8), "front" := Vector(0, 0, -1), "up" := Vector(0, 1, 0)]),
      "paths" := JDict(map["icons" := JStr("icons/"), "models" := JStr("models/"), "temp" := JStr("temp/")]),
      "backend" := JDict(map["url" := JStr("http://localhost:5000/api"), "timeout" := JInt(30)]),
      "editor" := JDict(map["brush_size" := JInt(10), "default_density" := JStr("中"),
                            "default_align" := JStr("选项1")])
    ]
  }

  /** The lookup `config[section][key]` succeeds: the section exists, is a
      dictionary, and holds the key. Indexing anything else raises `KeyError`
      or `TypeError`. */
  predicate Present(c: Config, section: string, key: string)
  {
    section in c && c[section].JDict? && key in c[section].entries
  }

  /** `get_value`: the stored value when the lookup succeeds, the default
      when it raises `KeyError` or `TypeError`. */
  function GetValue(c: Config, section: string, key: string, default: Json): (r: Json)
    ensures Present(c, section, key) ==> r == c[section].entries[key]
    ensures !Present(c, section, key) ==> r == default
  {
    if section in c && c[section].JDict? && key in c[section].entries then c[section].entries[key]
    else default
  }

  /** `set_value`: an absent section is created as an empty dictionary, then
      the key is assigned. When the section holds something other than a
      dictionary the item assignment raises `TypeError`, which is not caught
      (`None`). */
  function SetValue(c: Config, section: string, key: string, value: Json): (r: Option<Config>)
    ensures r.None? <==> section in c && !c[section].JDict?
    ensures r.Some? ==> r.value.Keys == c.Keys + {section}
    ensures r.Some? ==> r.value[section].JDict?
    ensures r.Some? ==>
              r.value[section].entries.Keys == (if section in c then c[section].entries.Keys else {}) + {key}
    ensures r.Some? ==> forall s :: s in c && s != section ==> r.value[s] == c[s]
  {
    var sec := if section in c then c[section] else JDict(map[]);
    if !sec.JDict? then None
    else Some(c[section := JDict(sec.entries[key := value])])
  }

  /** Reading back what was just set yields it. */
  lemma SetThenGet(c: Config, section: string, key: string, value: Json, default: Json)
    requires SetValue(c, section, key, value).Some?
    ensures GetValue(SetValue(c, section, key, value).value, section, key, default) == value
  {
  }

  /** Setting one option leaves every other lookup as it was, including
      lookups in a section the call created. */
  lemma SetLeavesOthers(c: Config, section: string, key: string, value: Json,
                        s: string, k: string, default: Json)
    requires SetValue(c, section, key, value).Some?
    requires s != section || k != key
    ensures GetValue(SetValue(c, section, key, value).value, s, k, default) == GetValue(c, s, k, default)
  {
  }

  /** Setting fails only on a section that is not a dictionary, which the
      defaults never contain. */
  lemma SetOnDefaultsSucceeds(section: string, key: string, value: Json)
    ensures SetValue(DefaultConfig(), section, key, value).Some?
  {
  }

  /** `_merge_config` on one value: when both the default and the loaded
      value are dictionaries, each default key is merged with its loaded
      counterpart (keys only the loaded side has are dropped); otherwise the
      loaded value replaces the default. */
  function MergeValue(d: Json, l: Json): (r: Json)
    decreases d
  {
    if d.JDict? && l.JDict? then
      JDict(map k | k in d.entries :: if k in l.entries then MergeValue(d.entries[k], l.entries[k]) else d.entries[k])
    else l
  }

  /** One key of a merged dictionary: merged with the loaded counterpart
      when there is one, the default otherwise. */
  lemma MergeEntry(d: Json, l: Json, k: string)
    requires d.JDict? && l.JDict? && k in d.entries
    ensures MergeValue(d, l).JDict? && k in MergeValue(d, l).entries
    ensures MergeValue(d, l).entries[k] ==
              if k in l.entries then MergeValue(d.entries[k], l.entries[k]) else d.entries[k]
  {
  }

  /** `_merge_config(default, loaded)` at the top level: the dictionary the
      defaults become once the loaded file is merged in. */
  function Merge(d: Config, l: Config): (r: Config)
    ensures r.Keys == d.Keys
    ensures forall k :: k in d && k !in l ==> r[k] == d[k]
    ensures forall k :: k in d && k in l && !(d[k].JDict? && l[k].JDict?) ==> r[k] == l[k]
  {
    var r := MergeValue(JDict(d), JDict(l)).entries;
    forall k | k in d
      ensures k in r && r[k] == if k in l then MergeValue(d[k], l[k]) else d[k]
    {
      MergeEntry(JDict(d), JDict(l), k);
    }
    r
  }

  /** `_merge_config` never adds a key: at every level where both sides are
      dictionaries, the merged keys are exactly the default keys. */
  lemma MergeKeys(d: Json, l: Json)
    requires d.JDict? && l.JDict?
    ensures MergeValue(d, l).JDict? && MergeValue(d, l).entries.Keys == d.entries.Keys
  {
  }

  /** Merging a value with itself changes nothing. */
  lemma {:induction false} MergeSelf(d: Json)
    ensures MergeValue(d, d) == d
    decreases d
  {
    if d.JDict? {
      forall k | k in d.entries
        ensures MergeValue(d, d).entries[k] == d.entries[k]
      {
        MergeSelf(d.entries[k]);
      }
    }
  }

  /** Loading the same file twice gives the same configuration as loading it
      once. */
  lemma {:induction false} MergeIdempotent(d: Json, l: Json)
    ensures MergeValue(MergeValue(d, l), l) == MergeValue(d, l)
    decreases d
  {
    if d.JDict? && l.JDict? {
      var m := MergeValue(d, l);
      MergeKeys(d, l);
      MergeKeys(m, l);
      forall k | k in d.entries
        ensures MergeValue(m, l).entries[k] == m.entries[k]
      {
        MergeEntry(d, l, k);
        MergeEntry(m, l, k);
        if k in l.entries {
          MergeIdempotent(d.entries[k], l.entries[k]);
        }
      }
      assert MergeValue(m, l).entries == m.entries;
    } else {
      MergeSelf(l);
    }
  }

  /** Loading a file whose sections are dictionaries wherever the defaults
      have dictionaries keeps every default option readable: each default
      (section, key) still resolves, to the loaded value when the file has
      it and the default option is a leaf, and to the default when the file
      does not have it. The defaults are such a
      configuration (every section is a dictionary). */
  lemma MergeKeepsDefaultOptions(d: Config, l: Config, section: string, key: string, default: Json)
    requires forall s :: s in l && s in d && d[s].JDict? ==> l[s].JDict?
    requires Present(d, section, key)
    ensures Present(Merge(d, l), section, key)
    ensures Present(l, section, key) && !d[section].entries[key].JDict? ==>
              GetValue(Merge(d, l), section, key, default) == l[section].entries[key]
    ensures !Present(l, section, key) ==> GetValue(Merge(d, l), section, key, default) == d[section].entries[key]
  {
    if section in l {
      MergeKeys(d[section], l[section]);
      if key in l[section].entries {
        MergeEntry(d[section], l[section], key);
      }
    }
  }

  /** Where the loaded file is not shaped like the defaults, options are
      lost: a section the file replaces by a non-dictionary no longer
      resolves any of its default options. */
  lemma MergeCanDropOptions()
    ensures !Present(Merge(DefaultConfig(), map["window" := JInt(5)]), "window", "width")
    ensures Present(DefaultConfig(), "window", "width")
  {
  }
}

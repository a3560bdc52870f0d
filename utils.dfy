/** The model locator of utils/utils.py: `LoadModel` reads the models file
    once, lists the `{name, url}` entries of a section, and turns them into
    the cache directories `<home>/.cache/octy/<section>/<name>`, failing at the
    first one that is missing.

    The YAML file itself is given to the constructor as its parsed value,
    `Path.home()` as the path `home`, and `Path.exists()` as the predicate
    `dirExists`. A path is the sequence of its segments; `/` appends one. */
module Utils {
  import opened Wrappers
  import opened JsonModel

  type Path = seq<string>

  /** `ModelSpec`: the `name` and `url` of one model, as written in the file. */
  datatype ModelSpec = ModelSpec(name: Json, url: Json)

  /** The exceptions `extract_section_models` and `ensure_model` raise. */
  datatype ModelError =
    | NotAMapping                 // the file's value has no `.get` (AttributeError)
    | NotAList(section: string)   // ValueError: the section is not a list
    | NameNotText(name: Json)     // `Path / name` on a name that is not text (TypeError)
    | MissingDirectory(dir: Path) // FileNotFoundError

  /** The cache directory under the home directory. */
  const CacheDir: Path := [".cache", "octy"]

  /** The entry a dict item of a section becomes; missing keys give "". */
  function SpecOf(item: Json): ModelSpec
  {
    if item.JObj? then ModelSpec(Get(item.fields, "name", JStr("")), Get(item.fields, "url", JStr("")))
    else ModelSpec(JStr(""), JStr(""))
  }

  /** The entries of a section's items: items that are not dicts are skipped. */
  function SpecsOf(items: seq<Json>): seq<ModelSpec>
    decreases |items|
  {
    if items == [] then []
    else
      var last := items[|items| - 1];
      SpecsOf(items[..|items| - 1]) + (if last.JObj? then [SpecOf(last)] else [])
  }

  /** What `extract_section_models(section)` returns or raises. */
  function SectionModels(data: Json, section: string): Result<seq<ModelSpec>, ModelError>
  {
    if !data.JObj? then Err(NotAMapping)
    else
      match Get(data.fields, section, JArr([]))
      case JArr(items) => Ok(SpecsOf(items))
      case _ => Err(NotAList(section))
  }

  /** The directory of one model, or the exception building or checking it raises. */
  function ModelDir(spec: ModelSpec, base: Path, section: string, dirExists: Path -> bool): Result<Path, ModelError>
  {
    if !spec.name.JStr? then Err(NameNotText(spec.name))
    else
      var dir := base + [section, spec.name.s];
      if dirExists(dir) then Ok(dir) else Err(MissingDirectory(dir))
  }

  /** The directories of `specs`, in order, or the first exception. */
  function ModelDirs(specs: seq<ModelSpec>, base: Path, section: string, dirExists: Path -> bool): Result<seq<Path>, ModelError>
    decreases |specs|
  {
    if specs == [] then Ok([])
    else
      match ModelDirs(specs[..|specs| - 1], base, section, dirExists)
      case Err(e) => Err(e)
      case Ok(dirs) =>
        match ModelDir(specs[|specs| - 1], base, section, dirExists)
        case Err(e) => Err(e)
        case Ok(dir) => Ok(dirs + [dir])
  }

  /** What `ensure_model(section)` returns or raises. */
  function ModelPaths(data: Json, home: Path, section: string, dirExists: Path -> bool): Result<seq<Path>, ModelError>
  {
    match SectionModels(data, section)
    case Err(e) => Err(e)
    case Ok(specs) => ModelDirs(specs, home + CacheDir, section, dirExists)
  }

  class LoadModel {
    /** `self.data`: the parsed models file. */
    var data: Json

    /** `load_yaml()` yields `data or {}`: an empty or missing document becomes
        an empty dict. */
    constructor (loaded: Json)
      ensures data == (if Truthy(loaded) then loaded else JObj([]))
    {
      data := if Truthy(loaded) then loaded else JObj([]);
    }

    method ExtractSectionModels(section: string) returns (r: Result<seq<ModelSpec>, ModelError>)
      ensures r == SectionModels(data, section)
      ensures data.JObj? && (forall i :: 0 <= i < |data.fields| ==> data.fields[i].0 != section) ==> r == Ok([])
      ensures r == Err(NotAList(section)) <==> data.JObj? && !Get(data.fields, section, JArr([])).JArr?
    {
      if !data.JObj? {
        return Err(NotAMapping);
      }
      var items := Get(data.fields, section, JArr([]));
      if !items.JArr? {
        return Err(NotAList(section));
      }
      var xs := items.elems;
      var out: seq<ModelSpec> := [];
      var i := 0;
      while i < |xs|
        invariant 0 <= i <= |xs|
        invariant SpecsOf(xs[..i]) == out
      {
        assert xs[..i + 1][..i] == xs[..i];
        if xs[i].JObj? {
          out := out + [SpecOf(xs[i])];
        } else {
          assert out + [] == out;
        }
        i := i + 1;
      }
      assert xs[..i] == xs;
      r := Ok(out);
    }

    method EnsureModel(home: Path, dirExists: Path -> bool, section: string) returns (r: Result<seq<Path>, ModelError>)
      ensures r == ModelPaths(data, home, section, dirExists)
      ensures SectionModels(data, section).Err? ==> r == Err(SectionModels(data, section).error)
    {
      var base := home + CacheDir;
      var values := ExtractSectionModels(section);
      if values.Err? {
        return Err(values.error);
      }
      var specs := values.value;
      var models: seq<Path> := [];
      var i := 0;
      while i < |specs|
        invariant 0 <= i <= |specs|
        invariant ModelDirs(specs[..i], base, section, dirExists) == Ok(models)
      {
        assert specs[..i + 1][..i] == specs[..i];
        var name := specs[i].name;
        if !name.JStr? {
          ModelDirsFailurePersists(specs, i + 1, base, section, dirExists);
          return Err(NameNotText(name));
        }
        var dir := base + [section, name.s];
        if !dirExists(dir) {
          ModelDirsFailurePersists(specs, i + 1, base, section, dirExists);
          return Err(MissingDirectory(dir));
        }
        models := models + [dir];
        i := i + 1;
      }
      assert specs[..i] == specs;
      r := Ok(models);
    }
  }

  lemma {:induction false} ModelDirsFailurePersists(specs: seq<ModelSpec>, k: nat, base: Path, section: string, dirExists: Path -> bool)
    requires k <= |specs| && ModelDirs(specs[..k], base, section, dirExists).Err?
    ensures ModelDirs(specs, base, section, dirExists) == ModelDirs(specs[..k], base, section, dirExists)
    decreases |specs|
  {
    if k < |specs| {
      var init := specs[..|specs| - 1];
      assert init[..k] == specs[..k];
      ModelDirsFailurePersists(init, k, base, section, dirExists);
    } else {
      assert specs[..k] == specs;
    }
  }

  // ---------------------------------------------------------------------------
  // Properties
  // ---------------------------------------------------------------------------

  /** The positions of the dict items, in increasing order. */
  function ObjectPositions(items: seq<Json>): (r: seq<nat>)
    decreases |items|
  {
    if items == [] then []
    else
      var last := |items| - 1;
      ObjectPositions(items[..last]) + (if items[last].JObj? then [last] else [])
  }

  /** The entries of a section are exactly its dict items, in their order:
      entry k comes from the k-th dict item, and every dict item gives one. */
  lemma {:induction false} SpecsFollowDictItems(items: seq<Json>)
    ensures var pos := ObjectPositions(items); var specs := SpecsOf(items);
      && |specs| == |pos|
      && (forall k :: 0 <= k < |pos| ==> pos[k] < |items| && items[pos[k]].JObj? && specs[k] == SpecOf(items[pos[k]]))
      && (forall k, l :: 0 <= k < l < |pos| ==> pos[k] < pos[l])
      && (forall i :: 0 <= i < |items| && items[i].JObj? ==> i in pos)
    decreases |items|
  {
    ObjectPositionsSound(items);
    SpecsAtPositions(items);
  }

  /** The dict positions are exactly the dict items, in increasing order. */
  lemma {:induction false} ObjectPositionsSound(items: seq<Json>)
    ensures var pos := ObjectPositions(items);
      && (forall k :: 0 <= k < |pos| ==> pos[k] < |items| && items[pos[k]].JObj?)
      && (forall k, l :: 0 <= k < l < |pos| ==> pos[k] < pos[l])
      && (forall i :: 0 <= i < |items| && items[i].JObj? ==> i in pos)
    decreases |items|
  {
    if items != [] {
      var init := items[..|items| - 1];
      ObjectPositionsSound(init);
      assert forall i :: 0 <= i < |init| ==> items[i] == init[i];
    }
  }

  /** Entry k is the entry of the k-th dict item. */
  lemma {:induction false} SpecsAtPositions(items: seq<Json>)
    ensures |SpecsOf(items)| == |ObjectPositions(items)|
    ensures forall k :: 0 <= k < |ObjectPositions(items)| ==>
      ObjectPositions(items)[k] < |items| && SpecsOf(items)[k] == SpecOf(items[ObjectPositions(items)[k]])
    decreases |items|
  {
    if items != [] {
      var init := items[..|items| - 1];
      SpecsAtPositions(init);
      assert forall i :: 0 <= i < |init| ==> items[i] == init[i];
    }
  }

  /** An entry's `name` and `url` are the values the item stores under the
      first field with that key, and "" where the item lacks the key. */
  lemma SpecOfFields(item: Json)
    requires item.JObj?
    ensures (forall i :: 0 <= i < |item.fields| ==> item.fields[i].0 != "name") ==> SpecOf(item).name == JStr("")
    ensures (forall i :: 0 <= i < |item.fields| ==> item.fields[i].0 != "url") ==> SpecOf(item).url == JStr("")
    ensures forall i :: 0 <= i < |item.fields| && item.fields[i].0 == "name" && (forall j :: 0 <= j < i ==> item.fields[j].0 != "name") ==> SpecOf(item).name == item.fields[i].1
    ensures forall i :: 0 <= i < |item.fields| && item.fields[i].0 == "url" && (forall j :: 0 <= j < i ==> item.fields[j].0 != "url") ==> SpecOf(item).url == item.fields[i].1
  {
    forall i | 0 <= i < |item.fields| && item.fields[i].0 == "name" && (forall j :: 0 <= j < i ==> item.fields[j].0 != "name") {
      GetFirstMatch(item.fields, "name", JStr(""), i);
    }
    forall i | 0 <= i < |item.fields| && item.fields[i].0 == "url" && (forall j :: 0 <= j < i ==> item.fields[j].0 != "url") {
      GetFirstMatch(item.fields, "url", JStr(""), i);
    }
  }

  /** When every model's name is text and its directory exists, the result is
      one directory per model, in order, each `base/section/name`; and
      conversely a result means all of that holds. */
  lemma {:induction false} ModelDirsAllPresent(specs: seq<ModelSpec>, base: Path, section: string, dirExists: Path -> bool)
    ensures ModelDirs(specs, base, section, dirExists).Ok?
      <==> forall k :: 0 <= k < |specs| ==> specs[k].name.JStr? && dirExists(base + [section, specs[k].name.s])
    ensures ModelDirs(specs, base, section, dirExists).Ok? ==>
      var dirs := ModelDirs(specs, base, section, dirExists).value;
      |dirs| == |specs| && forall k :: 0 <= k < |specs| ==> dirs[k] == base + [section, specs[k].name.s]
    decreases |specs|
  {
    if specs != [] {
      var init := specs[..|specs| - 1];
      ModelDirsAllPresent(init, base, section, dirExists);
      assert forall k :: 0 <= k < |init| ==> specs[k] == init[k];
    }
  }

  /** A failure is raised at the first model whose name is not text or whose
      directory is missing, and no list is returned. */
  lemma {:induction false} ModelDirsFailsAtFirst(specs: seq<ModelSpec>, base: Path, section: string, dirExists: Path -> bool) returns (k: nat)
    requires ModelDirs(specs, base, section, dirExists).Err?
    ensures k < |specs|
    ensures ModelDir(specs[k], base, section, dirExists) == Err(ModelDirs(specs, base, section, dirExists).error)
    ensures forall j :: 0 <= j < k ==> ModelDir(specs[j], base, section, dirExists).Ok?
    decreases |specs|
  {
    var init := specs[..|specs| - 1];
    if ModelDirs(init, base, section, dirExists).Err? {
      k := ModelDirsFailsAtFirst(init, base, section, dirExists);
      assert specs[k] == init[k];
      assert forall j :: 0 <= j < k ==> specs[j] == init[j];
    } else {
      k := |specs| - 1;
      ModelDirsAllPresent(init, base, section, dirExists);
      assert forall j :: 0 <= j < k ==> specs[j] == init[j];
    }
  }
}

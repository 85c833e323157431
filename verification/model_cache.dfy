/** The model cache: entity model names resolved to shared model objects,
    created on first use and remembered under the name asked for. A model
    object is its kind plus the serial number of its creation, so that
    "the same object" is visible. */
module ModelCache {
  import opened Common
  import opened Decimal

  datatype ModelKind =
    | Humanoid | Chicken | Creeper | Pig | Sheep | Skeleton | Spider | Zombie | Block | Chibi | Giant

  /** A model object: created as the `serial`-th object of the cache. */
  datatype Model = Model(kind: ModelKind, serial: nat)

  /** The name-to-model dictionary and the number of models created. */
  datatype Cache = Cache(models: map<string, Model>, created: nat)

  /** InitModel: the kind a name creates, None for names it does not know
      ("humanoid" and "human" among them). */
  function InitModel(name: string): (k: Option<ModelKind>)
    ensures name == "block" ==> k == Some(Block)
    ensures name == "humanoid" || name == "human" ==> k.None?
  {
    if name == "chicken" then Some(Chicken)
    else if name == "creeper" then Some(Creeper)
    else if name == "pig" then Some(Pig)
    else if name == "sheep" then Some(Sheep)
    else if name == "skeleton" then Some(Skeleton)
    else if name == "spider" then Some(Spider)
    else if name == "zombie" then Some(Zombie)
    else if name == "block" then Some(Block)
    else if name == "chibi" then Some(Chibi)
    else if name == "giant" then Some(Giant)
    else None
  }

  /** Byte.TryParse, as decimal digits with a value up to 255. */
  predicate ParsesAsByte(name: string)
  {
    1 <= |name| && AllDigits(name) && ParseNat(name) < 256
  }

  /** InitCache: a fresh humanoid under "humanoid", aliased by "human". */
  function InitCache(c: Cache): (r: Cache)
    ensures "humanoid" in r.models && "human" in r.models
    ensures r.models["human"] == r.models["humanoid"]
    ensures r.models["humanoid"] == Model(Humanoid, c.created)
    ensures r.created == c.created + 1
  {
    var m := Model(Humanoid, c.created);
    Cache(c.models["humanoid" := m]["human" := m], c.created + 1)
  }

  /** The dictionary key GetModel looks up for a name other than "block". */
  function Key(name: string): string
  {
    if ParsesAsByte(name) then "block" else name
  }

  datatype Lookup = Lookup(cache: Cache, model: Model)

  /** GetModel. The literal "block" is answered with the humanoid; a name
      that parses as a byte is looked up as "block"; an absent key is
      created by InitModel, or falls back to the humanoid, and remembered.
      Reading "humanoid" before InitCache throws. */
  function GetModel(c: Cache, name: string): (r: Result<Lookup>)
    ensures r.Ok? && name != "block" ==>
              Key(name) in r.value.cache.models && r.value.cache.models[Key(name)] == r.value.model
    ensures r.Ok? && name != "block" && Key(name) in c.models ==> r.value == Lookup(c, c.models[Key(name)])
    ensures r.Ok? ==> forall k :: k in c.models ==> k in r.value.cache.models && r.value.cache.models[k] == c.models[k]
    ensures r.Err? <==> "humanoid" !in c.models &&
                        (name == "block" || (Key(name) !in c.models && InitModel(Key(name)).None?))
  {
    if name == "block" then
      if "humanoid" in c.models then Ok(Lookup(c, c.models["humanoid"])) else Err(KeyNotFound)
    else
      var key := Key(name);
      if key in c.models then Ok(Lookup(c, c.models[key]))
      else match InitModel(key)
        case Some(kind) =>
          var m := Model(kind, c.created);
          Ok(Lookup(Cache(c.models[key := m], c.created + 1), m))
        case None =>
          if "humanoid" in c.models then
            var m := c.models["humanoid"];
            Ok(Lookup(Cache(c.models[key := m], c.created), m))
          else Err(KeyNotFound)
  }

  /** The kind a key holds once resolved: what InitModel makes, else the
      humanoid fallback. */
  function ExpectedKind(key: string): ModelKind
  {
    match InitModel(key)
    case Some(k) => k
    case None => Humanoid
  }

  /** The cache's invariant: every key holds a model of its expected kind,
      every key InitModel does not know holds the very humanoid object of
      "humanoid", and every model was created before. */
  predicate Consistent(c: Cache)
  {
    && "humanoid" in c.models
    && (forall k :: k in c.models ==> c.models[k].kind == ExpectedKind(k))
    && (forall k :: k in c.models && InitModel(k).None? ==> c.models[k] == c.models["humanoid"])
    && (forall k :: k in c.models ==> c.models[k].serial < c.created)
  }

  lemma InitCacheConsistent(c: Cache)
    requires forall k :: k in c.models ==> c.models[k].kind == ExpectedKind(k) && c.models[k].serial < c.created
    requires forall k :: k in c.models && InitModel(k).None? ==> k == "humanoid" || k == "human"
    ensures Consistent(InitCache(c))
  {
  }

  /** From an empty cache InitCache makes "human" and "humanoid" the same
      object and a consistent cache. */
  lemma InitCacheAliases()
    ensures Consistent(InitCache(Cache(map[], 0)))
    ensures InitCache(Cache(map[], 0)).models["human"] == InitCache(Cache(map[], 0)).models["humanoid"]
  {
  }

  /** GetModel keeps the cache consistent and never fails on a consistent
      cache. */
  lemma GetModelConsistent(c: Cache, name: string)
    requires Consistent(c)
    ensures GetModel(c, name).Ok?
    ensures Consistent(GetModel(c, name).value.cache)
  {
  }

  /** What GetModel answers on a consistent cache: the humanoid for "block",
      a block model for byte names, the named kind for known names, and the
      humanoid object itself for anything else. */
  lemma GetModelResolves(c: Cache, name: string)
    requires Consistent(c)
    ensures name == "block" ==> GetModel(c, name).value.model == c.models["humanoid"]
    ensures name != "block" && ParsesAsByte(name) ==> GetModel(c, name).value.model.kind == Block
    ensures name != "block" && !ParsesAsByte(name) && InitModel(name).Some? ==>
              GetModel(c, name).value.model.kind == InitModel(name).value
    ensures name != "block" && !ParsesAsByte(name) && InitModel(name).None? ==>
              GetModel(c, name).value.model == c.models["humanoid"]
              && GetModel(c, name).value.cache.models[name] == c.models["humanoid"]
  {
  }

  /** Asking twice is asking once: the second call returns the same object
      and changes nothing, so InitModel runs at most once per key. */
  lemma GetModelIdempotent(c: Cache, name: string)
    requires Consistent(c)
    ensures var first := GetModel(c, name).value;
            GetModel(first.cache, name) == Ok(Lookup(first.cache, first.model))
  {
  }

  /** A lookup creates at most one model, and only for a key not yet
      cached. */
  lemma GetModelCreatesOnlyWhenAbsent(c: Cache, name: string)
    requires GetModel(c, name).Ok?
    ensures var r := GetModel(c, name).value;
            && r.cache.created <= c.created + 1
            && (r.cache.created == c.created + 1 <==>
                  name != "block" && Key(name) !in c.models && InitModel(Key(name)).Some?)
  {
  }
}

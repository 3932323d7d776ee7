/**
 The local registry of installed frontends: the strict parser of `registry.json`, the
 registration of new versions and the choice of the frontend to load.

 A JavaScript record is a map of its own keys, `undefined` is a missing key, and the order
 in which `Object.entries` lists keys is any order.
 */
module FrontendRegistry {
  import opened Options
  import opened Documents
  import opened FrontendPaths

  datatype Compatibility = Compatibility(frontendRuntime: string, apiContract: string, sdk: Option<string>)

  datatype Version = Version(
    version: string, name: string, description: Option<string>, author: Option<string>,
    compatibility: Compatibility, entry: string, styles: seq<string>, installedAt: string)

  datatype Frontend = Frontend(id: string, currentVersion: string, isProtected: bool, versions: map<string, Version>)

  datatype Registry = Registry(schemaVersion: real, updatedAt: string, frontends: map<string, Frontend>)

  // ---------------------------------------------------------------- what the parser accepts

  const ROOT_KEYS := {"schemaVersion", "updatedAt", "frontends"}
  const FRONTEND_KEYS := {"id", "currentVersion", "protected", "versions"}
  const VERSION_KEYS := {"version", "name", "description", "author", "compatibility", "entry", "styles", "installedAt"}
  const COMPATIBILITY_KEYS := {"frontendRuntime", "apiContract", "sdk"}

  function FieldsOf(o: Option<Json>): map<string, Json> {
    if o.Some? && o.value.Obj? then o.value.fields else map[]
  }

  predicate IsObject(o: Option<Json>) { o.Some? && o.value.Obj? }

  predicate IsText(o: Option<Json>) { o.Some? && o.value.Str? }

  predicate FullText(o: Option<Json>) { TextOf(o).GetOr("") != "" }

  function SafeAsset(o: Option<Json>): Option<string> {
    if IsText(o) && SafePath(o.value.text) then Some(o.value.text) else None
  }

  function ReadTexts(items: seq<Json>): Option<seq<string>> {
    if items == [] then Some([])
    else
      var before, last := ReadTexts(items[..|items| - 1]), SafeAsset(Some(items[|items| - 1]));
      if before.Some? && last.Some? then Some(before.value + [last.value]) else None
  }

  function ReadStyles(o: Option<Json>): Option<seq<string>> {
    if o == None then Some([]) else if o.value.Arr? then ReadTexts(o.value.items) else None
  }

  function ReadCompatibility(o: Option<Json>): Option<Compatibility> {
    var m := FieldsOf(o);
    var runtime, api := TextOf(Get(m, "frontendRuntime")), TextOf(Get(m, "apiContract"));
    if runtime.Some? && api.Some? then Some(Compatibility(runtime.value, api.value, TextOf(Get(m, "sdk")))) else None
  }

  /** The fields that stand alone: the version and its key, the name, the date. */
  predicate ScalarsOk(version: string, m: map<string, Json>) {
    Get(m, "version") == Some(Str(version)) && IsValidSemver(version) &&
    Trim(TextOf(Get(m, "name")).GetOr("")) != "" && FullText(Get(m, "installedAt"))
  }

  /** The installed version that an entry stands for, if it can be read. */
  function ReadVersion(version: string, raw: Json): Option<Version> {
    var m := FieldsOf(Some(raw));
    var entry, styles, pair := SafeAsset(Get(m, "entry")), ReadStyles(Get(m, "styles")), ReadCompatibility(Get(m, "compatibility"));
    if ScalarsOk(version, m) && entry.Some? && styles.Some? && pair.Some? then
      Some(Version(version, TextOf(Get(m, "name")).GetOr(""), TextOf(Get(m, "description")), TextOf(Get(m, "author")),
                   pair.value, entry.value, styles.value, TextOf(Get(m, "installedAt")).GetOr("")))
    else None
  }

  /** No field outside the public ones. */
  predicate VersionPublic(raw: Json) {
    var m := FieldsOf(Some(raw));
    m.Keys <= VERSION_KEYS && FieldsOf(Get(m, "compatibility")).Keys <= COMPATIBILITY_KEYS
  }

  function PublicVersion(version: string, raw: Json): Option<Version> {
    if VersionPublic(raw) then ReadVersion(version, raw) else None
  }

  /** All entries of a record, or nothing if one of them cannot be read. */
  function ReadAll<A>(m: map<string, Json>, read: (string, Json) -> Option<A>): Option<map<string, A>> {
    if forall k :: k in m ==> read(k, m[k]).Some? then Some(map k | k in m :: read(k, m[k]).value) else None
  }

  function ReadVersions(m: map<string, Json>): Option<map<string, Version>> {
    ReadAll(m, PublicVersion)
  }

  function FrontendFrom(id: string, m: map<string, Json>, versions: Option<map<string, Version>>): Option<Frontend> {
    var current := TextOf(Get(m, "currentVersion"));
    if IsSafeFrontendId(id) && (Get(m, "id") == None || Get(m, "id") == Some(Str(id))) && m.Keys <= FRONTEND_KEYS &&
       versions.Some? && current.Some? && current.value in versions.value
    then Some(Frontend(id, current.value, Get(m, "protected") == Some(Bool(true)), versions.value))
    else None
  }

  function ReadFrontend(id: string, raw: Json): Option<Frontend> {
    var m := FieldsOf(Some(raw));
    FrontendFrom(id, m, ReadVersions(FieldsOf(Get(m, "versions"))))
  }

  function ReadFrontends(m: map<string, Json>): Option<map<string, Frontend>> {
    if m == map[] then None else ReadAll(m, ReadFrontend)
  }

  function RegistryFrom(m: map<string, Json>, schema: real, frontends: Option<map<string, Frontend>>): Option<Registry> {
    if m.Keys <= ROOT_KEYS && Get(m, "schemaVersion") == Some(Number(schema)) && FullText(Get(m, "updatedAt")) && frontends.Some?
    then Some(Registry(schema, TextOf(Get(m, "updatedAt")).GetOr(""), frontends.value))
    else None
  }

  /** The registry that a document stands for, if it is acceptable as a whole. */
  function ReadRegistry(raw: Json, schema: real): Option<Registry> {
    var m := FieldsOf(Some(raw));
    RegistryFrom(m, schema, ReadFrontends(FieldsOf(Get(m, "frontends"))))
  }

  // ---------------------------------------------------------------- well-formed registries

  predicate GoodVersion(e: Version) {
    IsValidSemver(e.version) && Trim(e.name) != "" && SafePath(e.entry) && e.installedAt != "" &&
    forall i :: 0 <= i < |e.styles| ==> SafePath(e.styles[i])
  }

  predicate Every<A(!new)>(m: map<string, A>, good: (string, A) -> bool) {
    forall k :: k in m ==> good(k, m[k])
  }

  predicate GoodEntry(v: string, e: Version) {
    e.version == v && GoodVersion(e)
  }

  predicate GoodFrontend(id: string, f: Frontend) {
    IsSafeFrontendId(id) && f.id == id && f.currentVersion in f.versions && Every(f.versions, GoodEntry)
  }

  predicate WellFormed(reg: Registry) {
    reg.updatedAt != "" && Every(reg.frontends, GoodFrontend)
  }

  lemma EveryGrows<A(!new)>(m: map<string, A>, good: (string, A) -> bool, k: string, a: A)
    requires Every(m, good) && good(k, a)
    ensures Every(m[k := a], good)
  {
  }

  // ---------------------------------------------------------------- documents and what they mean

  function OptionalField(key: string, o: Option<string>): map<string, Json> {
    if o.Some? then map[key := Str(o.value)] else map[]
  }

  function PrintTexts(texts: seq<string>): seq<Json> {
    if texts == [] then [] else PrintTexts(texts[..|texts| - 1]) + [Str(texts[|texts| - 1])]
  }

  function PrintCompatibility(c: Compatibility): Json {
    Obj(map["frontendRuntime" := Str(c.frontendRuntime), "apiContract" := Str(c.apiContract)] + OptionalField("sdk", c.sdk))
  }

  function PrintVersion(e: Version): Json {
    Obj(map["version" := Str(e.version), "name" := Str(e.name), "compatibility" := PrintCompatibility(e.compatibility),
            "entry" := Str(e.entry), "styles" := Arr(PrintTexts(e.styles)), "installedAt" := Str(e.installedAt)]
        + OptionalField("description", e.description) + OptionalField("author", e.author))
  }

  function PrintAll<A>(m: map<string, A>, print1: A -> Json): (r: map<string, Json>)
    ensures r.Keys == m.Keys && forall k :: k in m ==> r[k] == print1(m[k])
  {
    map k | k in m :: print1(m[k])
  }

  function PrintFrontend(f: Frontend): Json {
    Obj(map["id" := Str(f.id), "currentVersion" := Str(f.currentVersion), "protected" := Bool(f.isProtected),
            "versions" := Obj(PrintAll(f.versions, PrintVersion))])
  }

  /** The document of a registry. */
  function Print(reg: Registry): Json {
    Obj(map["schemaVersion" := Number(reg.schemaVersion), "updatedAt" := Str(reg.updatedAt),
            "frontends" := Obj(PrintAll(reg.frontends, PrintFrontend))])
  }

  /** The field is the text, or there is no text where none is expected. */
  predicate MaybeText(m: map<string, Json>, key: string, o: Option<string>) {
    if o.Some? then Get(m, key) == Some(Str(o.value)) else key !in m || !m[key].Str?
  }

  predicate CompatibilityMeans(raw: Json, c: Compatibility) {
    raw.Obj? && raw.fields.Keys <= {"frontendRuntime", "apiContract", "sdk"} &&
    Get(raw.fields, "frontendRuntime") == Some(Str(c.frontendRuntime)) && Get(raw.fields, "apiContract") == Some(Str(c.apiContract)) &&
    MaybeText(raw.fields, "sdk", c.sdk)
  }

  /** The entry says exactly this: no other field, and only the styles may be left out. */
  predicate VersionMeans(raw: Json, e: Version) {
    raw.Obj? &&
    var m := raw.fields;
    m.Keys <= {"version", "name", "description", "author", "compatibility", "entry", "styles", "installedAt"} &&
    Get(m, "version") == Some(Str(e.version)) && Get(m, "name") == Some(Str(e.name)) && Get(m, "entry") == Some(Str(e.entry)) &&
    Get(m, "installedAt") == Some(Str(e.installedAt)) && MaybeText(m, "description", e.description) && MaybeText(m, "author", e.author) &&
    (if "styles" in m then m["styles"] == Arr(PrintTexts(e.styles)) else e.styles == []) &&
    "compatibility" in m && CompatibilityMeans(m["compatibility"], e.compatibility)
  }

  predicate AllMean<A(!new)>(raw: Json, r: map<string, A>, means: (Json, A) -> bool) {
    raw.Obj? && raw.fields.Keys == r.Keys && forall k :: k in r ==> means(raw.fields[k], r[k])
  }

  predicate FrontendMeans(raw: Json, f: Frontend) {
    raw.Obj? &&
    var m := raw.fields;
    m.Keys <= {"id", "currentVersion", "protected", "versions"} && (if "id" in m then m["id"] == Str(f.id) else true) &&
    Get(m, "currentVersion") == Some(Str(f.currentVersion)) && (f.isProtected <==> Get(m, "protected") == Some(Bool(true))) &&
    "versions" in m && AllMean(m["versions"], f.versions, VersionMeans)
  }

  /** The document says exactly this. */
  predicate Means(raw: Json, reg: Registry) {
    raw.Obj? &&
    var m := raw.fields;
    m.Keys <= {"schemaVersion", "updatedAt", "frontends"} && Get(m, "schemaVersion") == Some(Number(reg.schemaVersion)) &&
    Get(m, "updatedAt") == Some(Str(reg.updatedAt)) && "frontends" in m && AllMean(m["frontends"], reg.frontends, FrontendMeans)
  }

  lemma {:induction false} TextsIff(items: seq<Json>, texts: seq<string>)
    ensures ReadTexts(items) == Some(texts) <==> items == PrintTexts(texts) && forall i :: 0 <= i < |texts| ==> SafePath(texts[i])
  {
    if items != [] && texts != [] {
      var a, b := items[..|items| - 1], texts[..|texts| - 1];
      var x, t := items[|items| - 1], texts[|texts| - 1];
      TextsIff(a, b);
      assert items == a + [x] && texts == b + [t];
      assert ReadTexts(items) == Some(texts) <==> ReadTexts(a) == Some(b) && SafeAsset(Some(x)) == Some(t);
      assert items == PrintTexts(texts) <==> a == PrintTexts(b) && x == Str(t) by {
        var p := PrintTexts(b);
        assert PrintTexts(texts) == p + [Str(t)];
        if items == p + [Str(t)] {
          assert a == p && x == Str(t);
        }
      }
      assert (forall i :: 0 <= i < |texts| ==> SafePath(texts[i])) <==> (forall i :: 0 <= i < |b| ==> SafePath(b[i])) && SafePath(t) by {
        assert forall i :: 0 <= i < |b| ==> texts[i] == b[i];
        assert texts[|b|] == t;
      }
    }
  }

  lemma StylesIff(m: map<string, Json>, styles: seq<string>)
    ensures ReadStyles(Get(m, "styles")) == Some(styles) <==>
            (if "styles" in m then m["styles"] == Arr(PrintTexts(styles)) else styles == []) &&
            forall i :: 0 <= i < |styles| ==> SafePath(styles[i])
  {
    if "styles" in m && m["styles"].Arr? {
      TextsIff(m["styles"].items, styles);
    }
  }

  lemma CompatibilityIff(m: map<string, Json>, c: Compatibility)
    ensures ReadCompatibility(Get(m, "compatibility")) == Some(c) && FieldsOf(Get(m, "compatibility")).Keys <= COMPATIBILITY_KEYS <==>
            "compatibility" in m && CompatibilityMeans(m["compatibility"], c)
  {
  }

  /** An entry is accepted as a version exactly if that is a good one and what the entry says. */
  lemma VersionIff(v: string, raw: Json, e: Version)
    ensures PublicVersion(v, raw) == Some(e) <==> GoodEntry(v, e) && VersionMeans(raw, e)
  {
    var m := FieldsOf(Some(raw));
    StylesIff(m, e.styles);
    CompatibilityIff(m, e.compatibility);
    assert SafeAsset(Get(m, "entry")) == Some(e.entry) <==> Get(m, "entry") == Some(Str(e.entry)) && SafePath(e.entry);
  }

  lemma AllIff<A(!new)>(m: map<string, Json>, read: (string, Json) -> Option<A>, r: map<string, A>, good: (string, A) -> bool, means: (Json, A) -> bool)
    requires forall k, a :: k in m ==> (read(k, m[k]) == Some(a) <==> good(k, a) && means(m[k], a))
    ensures ReadAll(m, read) == Some(r) <==> Every(r, good) && AllMean(Obj(m), r, means)
  {
    if Every(r, good) && AllMean(Obj(m), r, means) {
      assert forall k :: k in m ==> read(k, m[k]) == Some(r[k]);
      assert (map k | k in m :: read(k, m[k]).value) == r;
    }
  }

  lemma VersionsIff(m: map<string, Json>, r: map<string, Version>)
    ensures ReadVersions(m) == Some(r) <==> Every(r, GoodEntry) && AllMean(Obj(m), r, VersionMeans)
  {
    forall v, e | v in m ensures PublicVersion(v, m[v]) == Some(e) <==> GoodEntry(v, e) && VersionMeans(m[v], e) {
      VersionIff(v, m[v], e);
    }
    AllIff(m, PublicVersion, r, GoodEntry, VersionMeans);
  }

  lemma FrontendIff(id: string, raw: Json, f: Frontend)
    ensures ReadFrontend(id, raw) == Some(f) <==> GoodFrontend(id, f) && FrontendMeans(raw, f)
  {
    var m := FieldsOf(Some(raw));
    VersionsIff(FieldsOf(Get(m, "versions")), f.versions);
    FrontendFromIff(id, m, ReadVersions(FieldsOf(Get(m, "versions"))), f);
  }

  lemma FrontendFromIff(id: string, m: map<string, Json>, versions: Option<map<string, Version>>, f: Frontend)
    ensures FrontendFrom(id, m, versions) == Some(f) <==>
            IsSafeFrontendId(id) && f.id == id && ("id" in m ==> m["id"] == Str(id)) && m.Keys <= FRONTEND_KEYS && versions == Some(f.versions) &&
            Get(m, "currentVersion") == Some(Str(f.currentVersion)) && f.currentVersion in f.versions &&
            (f.isProtected <==> Get(m, "protected") == Some(Bool(true)))
  {
  }

  lemma FrontendsIff(m: map<string, Json>, r: map<string, Frontend>)
    ensures ReadFrontends(m) == Some(r) <==> r != map[] && Every(r, GoodFrontend) && AllMean(Obj(m), r, FrontendMeans)
  {
    forall id, f | id in m ensures ReadFrontend(id, m[id]) == Some(f) <==> GoodFrontend(id, f) && FrontendMeans(m[id], f) {
      FrontendIff(id, m[id], f);
    }
    AllIff(m, ReadFrontend, r, GoodFrontend, FrontendMeans);
    assert m.Keys == {} <==> m == map[];
    assert r.Keys == {} <==> r == map[];
  }

  /**
   A document is accepted as a registry exactly if that is well formed and not empty, has the
   expected schema, and is what the document says, field by field and with no other field.
   */
  lemma RegistryIff(raw: Json, schema: real, reg: Registry)
    ensures ReadRegistry(raw, schema) == Some(reg) <==>
            WellFormed(reg) && reg.frontends != map[] && reg.schemaVersion == schema && Means(raw, reg)
  {
    var m := FieldsOf(Some(raw));
    FrontendsIff(FieldsOf(Get(m, "frontends")), reg.frontends);
    RegistryFromIff(m, schema, ReadFrontends(FieldsOf(Get(m, "frontends"))), reg);
  }

  lemma RegistryFromIff(m: map<string, Json>, schema: real, frontends: Option<map<string, Frontend>>, reg: Registry)
    ensures RegistryFrom(m, schema, frontends) == Some(reg) <==>
            reg.schemaVersion == schema && m.Keys <= ROOT_KEYS && Get(m, "schemaVersion") == Some(Number(schema)) &&
            Get(m, "updatedAt") == Some(Str(reg.updatedAt)) && reg.updatedAt != "" && frontends == Some(reg.frontends)
  {
  }

  /** Whatever parses is well formed: its current versions are installed and its paths are safe. */
  lemma ReadWellFormed(raw: Json, schema: real)
    ensures var r := ReadRegistry(raw, schema);
            r.Some? ==> WellFormed(r.value) && r.value.frontends != map[] && r.value.schemaVersion == schema
  {
    if ReadRegistry(raw, schema).Some? {
      RegistryIff(raw, schema, ReadRegistry(raw, schema).value);
    }
  }

  lemma PrintedVersionMeans(e: Version)
    ensures VersionMeans(PrintVersion(e), e)
  {
    VersionFields(e);
    OptionalFields(e);
  }

  lemma OptionalFields(e: Version)
    ensures var m := PrintVersion(e).fields;
            MaybeText(m, "description", e.description) && MaybeText(m, "author", e.author) && m.Keys <= VERSION_KEYS
  {
  }

  lemma VersionFields(e: Version)
    ensures var m := PrintVersion(e).fields;
            Get(m, "version") == Some(Str(e.version)) && Get(m, "name") == Some(Str(e.name)) &&
            Get(m, "compatibility") == Some(PrintCompatibility(e.compatibility)) && Get(m, "entry") == Some(Str(e.entry)) &&
            Get(m, "styles") == Some(Arr(PrintTexts(e.styles))) && Get(m, "installedAt") == Some(Str(e.installedAt))
  {
  }

  lemma PrintedFrontendMeans(f: Frontend)
    ensures FrontendMeans(PrintFrontend(f), f)
  {
    forall v | v in f.versions ensures VersionMeans(PrintVersion(f.versions[v]), f.versions[v]) {
      PrintedVersionMeans(f.versions[v]);
    }
  }

  lemma PrintedMeans(reg: Registry)
    ensures Means(Print(reg), reg)
  {
    forall id | id in reg.frontends ensures FrontendMeans(PrintFrontend(reg.frontends[id]), reg.frontends[id]) {
      PrintedFrontendMeans(reg.frontends[id]);
    }
  }

  /** Exactly the well-formed, non-empty registries are the meaning of the document printed from them. */
  lemma PrintRoundTrip(reg: Registry)
    ensures ReadRegistry(Print(reg), reg.schemaVersion) == Some(reg) <==> WellFormed(reg) && reg.frontends != map[]
  {
    PrintedMeans(reg);
    RegistryIff(Print(reg), reg.schemaVersion, reg);
  }

  // ---------------------------------------------------------------- the parser

  datatype Fault =
    | UnknownField(key: string) | NotAnObject | KeyMismatch | BadSemver | NotText | BadPath(reason: Reason)
    | NotAnArray | Undeclared | UnsafeId | BadSchema | NoVersions | NotInstalled | NoFrontends | NotJson | AlreadyInstalled

  datatype Issue = Issue(place: seq<string>, fault: Fault)

  /** The `errors` array shared by the parsers. */
  class Log {
    var issues: seq<Issue>

    constructor ()
      ensures issues == []
    {
      issues := [];
    }

    method Push(issue: Issue)
      modifies this
      ensures issues == old(issues) + [issue]
    {
      issues := issues + [issue];
    }
  }

  method CollectUnknownKeys(place: seq<string>, m: map<string, Json>, allowed: set<string>, log: Log)
    modifies log
    ensures |log.issues| >= old(|log.issues|)
    ensures |log.issues| == old(|log.issues|) <==> m.Keys <= allowed
  {
    var todo := m.Keys;
    while todo != {}
      invariant todo <= m.Keys
      invariant |log.issues| >= old(|log.issues|)
      invariant |log.issues| == old(|log.issues|) <==> m.Keys - todo <= allowed
      decreases |todo|
    {
      var key :| key in todo;
      if key !in allowed {
        log.Push(Issue(place, UnknownField(key)));
      }
      todo := todo - {key};
    }
    assert m.Keys - {} == m.Keys;
  }

  /** `checkRelativeAssetPath` on any value. */
  function CheckAsset(o: Option<Json>): (r: Option<Reason>)
    ensures r == None <==> SafeAsset(o).Some?
  {
    if !IsText(o) then Some(NotAString)
    else
      CheckAcceptsSafePaths(o.value.text);
      CheckRelativeAssetPath(o.value.text)
  }

  method ParseStyles(place: seq<string>, raw: Option<Json>, log: Log) returns (styles: seq<string>, local: nat)
    modifies log
    ensures |log.issues| == old(|log.issues|) + local
    ensures ReadStyles(raw) == if local == 0 then Some(styles) else None
  {
    styles, local := [], 0;
    if raw.Some? {
      if !raw.value.Arr? {
        log.Push(Issue(place, NotAnArray));
        return [], 1;
      }
      var items := raw.value.items;
      for i := 0 to |items|
        invariant |log.issues| == old(|log.issues|) + local
        invariant ReadTexts(items[..i]) == if local == 0 then Some(styles) else None
      {
        assert items[..i + 1][..i] == items[..i];
        var check := CheckAsset(Some(items[i]));
        if check.Some? {
          log.Push(Issue(place, BadPath(check.value)));
          local := local + 1;
        } else {
          styles := styles + [items[i].text];
        }
      }
      assert items[..|items|] == items;
    }
  }

  method ParseCompatibility(place: seq<string>, raw: Option<Json>, log: Log) returns (c: Option<Compatibility>, local: nat)
    modifies log
    ensures c == ReadCompatibility(raw) && (local == 0 <==> c.Some?)
    ensures |log.issues| >= old(|log.issues|)
    ensures |log.issues| == old(|log.issues|) <==> c.Some? && FieldsOf(raw).Keys <= COMPATIBILITY_KEYS
  {
    if !IsObject(raw) {
      log.Push(Issue(place, NotAnObject));
      return None, 1;
    }
    var m := raw.value.fields;
    CollectUnknownKeys(place, m, COMPATIBILITY_KEYS, log);
    var runtime, api := Get(m, "frontendRuntime"), Get(m, "apiContract");
    if !IsText(runtime) || !IsText(api) {
      log.Push(Issue(place, Undeclared));
      return None, 1;
    }
    return Some(Compatibility(runtime.value.text, api.value.text, TextOf(Get(m, "sdk")))), 0;
  }

  method CheckScalars(place: seq<string>, version: string, m: map<string, Json>, log: Log) returns (local: nat)
    modifies log
    ensures |log.issues| == old(|log.issues|) + local
    ensures local == 0 <==> ScalarsOk(version, m)
  {
    local := 0;
    if Get(m, "version") != Some(Str(version)) {
      log.Push(Issue(place, KeyMismatch));
      local := local + 1;
    }
    if !IsValidSemver(version) {
      log.Push(Issue(place, BadSemver));
      local := local + 1;
    }
    var name := TextOf(Get(m, "name"));
    if name == None || Trim(name.value) == "" {
      log.Push(Issue(place, NotText));
      local := local + 1;
    }
    var date := TextOf(Get(m, "installedAt"));
    if date == None || date.value == "" {
      log.Push(Issue(place, NotText));
      local := local + 1;
    }
  }

  /** `parseVersionEntry`: an unknown field is an error but does not hide the entry. */
  method ParseVersionEntry(id: string, version: string, raw: Json, log: Log) returns (r: Option<Version>)
    modifies log
    ensures r == ReadVersion(version, raw)
    ensures |log.issues| >= old(|log.issues|)
    ensures |log.issues| == old(|log.issues|) <==> r.Some? && VersionPublic(raw)
  {
    var place := ["frontends", id, "versions", version];
    if !raw.Obj? {
      log.Push(Issue(place, NotAnObject));
      return None;
    }
    var m := raw.fields;
    CollectUnknownKeys(place, m, VERSION_KEYS, log);
    var scalars := CheckScalars(place, version, m, log);
    var entry := CheckAsset(Get(m, "entry"));
    if entry.Some? {
      log.Push(Issue(place, BadPath(entry.value)));
    }
    var styles, assets := ParseStyles(place + ["styles"], Get(m, "styles"), log);
    var compatibility, pair := ParseCompatibility(place + ["compatibility"], Get(m, "compatibility"), log);
    if scalars + assets + pair > 0 || entry.Some? || compatibility == None {
      return None;
    }
    return Some(Version(version, m["name"].text, TextOf(Get(m, "description")), TextOf(Get(m, "author")),
                        compatibility.value, m["entry"].text, styles, m["installedAt"].text));
  }

  /** The loop over a record: `todo` is still to be read, and `clean` says that no entry was refused. */
  ghost predicate Reading<A(!new)>(m: map<string, Json>, todo: set<string>, read: (string, Json) -> Option<A>, clean: bool, acc: map<string, A>) {
    todo <= m.Keys &&
    (clean <==> forall k :: k in m && k !in todo ==> read(k, m[k]).Some?) &&
    (clean ==> acc.Keys == m.Keys - todo && forall k :: k in acc ==> read(k, m[k]) == Some(acc[k]))
  }

  lemma ReadingStep<A(!new)>(m: map<string, Json>, todo: set<string>, read: (string, Json) -> Option<A>, clean: bool, acc: map<string, A>, k: string)
    requires Reading(m, todo, read, clean, acc) && k in todo
    ensures var r := read(k, m[k]);
            if r.Some? then Reading(m, todo - {k}, read, clean, acc[k := r.value])
            else forall acc' :: Reading(m, todo - {k}, read, false, acc')
  {
  }

  lemma ReadingEnd<A(!new)>(m: map<string, Json>, read: (string, Json) -> Option<A>, clean: bool, acc: map<string, A>)
    requires Reading(m, {}, read, clean, acc)
    ensures ReadAll(m, read) == if clean then Some(acc) else None
  {
    if clean {
      assert (map k | k in m :: read(k, m[k]).value) == acc;
    }
  }

  method ParseVersions(id: string, m: map<string, Json>, log: Log) returns (versions: map<string, Version>)
    modifies log
    ensures |log.issues| >= old(|log.issues|)
    ensures ReadVersions(m) == if |log.issues| == old(|log.issues|) then Some(versions) else None
  {
    versions := map[];
    var todo := m.Keys;
    while todo != {}
      invariant |log.issues| >= old(|log.issues|)
      invariant Reading(m, todo, PublicVersion, |log.issues| == old(|log.issues|), versions)
      decreases |todo|
    {
      var v :| v in todo;
      ReadingStep(m, todo, PublicVersion, |log.issues| == old(|log.issues|), versions, v);
      var parsed := ParseVersionEntry(id, v, m[v], log);
      if parsed.Some? {
        versions := versions[v := parsed.value];
      }
      todo := todo - {v};
    }
    ReadingEnd(m, PublicVersion, |log.issues| == old(|log.issues|), versions);
  }

  method ParseFrontend(id: string, raw: Json, log: Log) returns (r: Option<Frontend>)
    modifies log
    ensures |log.issues| >= old(|log.issues|)
    ensures ReadFrontend(id, raw) == if |log.issues| == old(|log.issues|) then r else None
    ensures |log.issues| == old(|log.issues|) ==> r.Some?
  {
    if !IsSafeFrontendId(id) {
      log.Push(Issue(["frontends"], UnsafeId));
      return None;
    }
    var place := ["frontends", id];
    if !raw.Obj? {
      log.Push(Issue(place, NotAnObject));
      return None;
    }
    var m := raw.fields;
    var own := Get(m, "id");
    if own.Some? && own.value != Str(id) {
      log.Push(Issue(place, KeyMismatch));
    }
    CollectUnknownKeys(place, m, FRONTEND_KEYS, log);
    var listed := Get(m, "versions");
    if !IsObject(listed) {
      log.Push(Issue(place, NotAnObject));
      return None;
    }
    var versions := ParseVersions(id, listed.value.fields, log);
    if versions == map[] {
      log.Push(Issue(place, NoVersions));
      return None;
    }
    var current := TextOf(Get(m, "currentVersion"));
    if current == None || current.value !in versions {
      log.Push(Issue(place, NotInstalled));
      return None;
    }
    return Some(Frontend(id, current.value, Get(m, "protected") == Some(Bool(true)), versions));
  }

  datatype Parsed = Ok(registry: Registry) | Err(issues: seq<Issue>)

  /** The argument of `parseRegistry`: a text, with what `JSON.parse` makes of it, or a value. */
  datatype Input = Text(json: Option<Json>) | Value(raw: Json)

  function RawOf(input: Input): Option<Json> {
    match input
    case Text(json) => json
    case Value(raw) => Some(raw)
  }

  method ParseFrontends(m: map<string, Json>, log: Log) returns (frontends: map<string, Frontend>)
    modifies log
    ensures |log.issues| >= old(|log.issues|)
    ensures ReadFrontends(m) == if |log.issues| == old(|log.issues|) then Some(frontends) else None
  {
    frontends := map[];
    var todo := m.Keys;
    while todo != {}
      invariant |log.issues| >= old(|log.issues|)
      invariant Reading(m, todo, ReadFrontend, |log.issues| == old(|log.issues|), frontends)
      decreases |todo|
    {
      var id :| id in todo;
      ReadingStep(m, todo, ReadFrontend, |log.issues| == old(|log.issues|), frontends, id);
      var parsed := ParseFrontend(id, m[id], log);
      if parsed.Some? {
        frontends := frontends[id := parsed.value];
      }
      todo := todo - {id};
    }
    ReadingEnd(m, ReadFrontend, |log.issues| == old(|log.issues|), frontends);
    if frontends == map[] {
      log.Push(Issue([], NoFrontends));
    }
  }

  /** `parseRegistry`: all or nothing, whatever the order of the keys. */
  method ParseRegistry(input: Input, schema: real) returns (r: Parsed)
    ensures r.Ok? <==> RawOf(input).Some? && ReadRegistry(RawOf(input).value, schema).Some?
    ensures r.Ok? ==> Some(r.registry) == ReadRegistry(RawOf(input).value, schema)
    ensures r.Err? ==> r.issues != []
  {
    var json := RawOf(input);
    if json == None {
      return Err([Issue([], NotJson)]);
    }
    var raw := json.value;
    if !raw.Obj? {
      return Err([Issue([], NotAnObject)]);
    }
    var m := raw.fields;
    var log := new Log();
    CollectUnknownKeys([], m, ROOT_KEYS, log);
    if Get(m, "schemaVersion") != Some(Number(schema)) {
      log.Push(Issue([], BadSchema));
    }
    var date := TextOf(Get(m, "updatedAt"));
    if date == None || date.value == "" {
      log.Push(Issue([], NotText));
    }
    var listed := Get(m, "frontends");
    if !IsObject(listed) {
      log.Push(Issue([], NotAnObject));
      return Err(log.issues);
    }
    var frontends := ParseFrontends(listed.value.fields, log);
    if log.issues != [] {
      return Err(log.issues);
    }
    return Ok(Registry(schema, date.value, frontends));
  }

  // ---------------------------------------------------------------- registration

  datatype Registration = Registration(id: string, isProtected: Option<bool>, version: Version, makeCurrent: bool)

  datatype Registered = Added(registry: Registry) | Refused(fault: Fault)

  function EmptyRegistry(now: string): Registry {
    Registry(1.0, now, map[])
  }

  /** `registerFrontendVersion` */
  function Register(reg: Registry, r: Registration): Registered {
    var v := r.version.version;
    if !IsSafeFrontendId(r.id) then Refused(UnsafeId)
    else if !IsValidSemver(v) then Refused(BadSemver)
    else if r.id in reg.frontends && v in reg.frontends[r.id].versions then Refused(AlreadyInstalled)
    else
      var known := r.id in reg.frontends;
      var versions := (if known then reg.frontends[r.id].versions else map[])[v := r.version];
      var current := if r.makeCurrent || !known || reg.frontends[r.id].currentVersion == "" then v else reg.frontends[r.id].currentVersion;
      var guarded := if r.isProtected.Some? then r.isProtected.value else known && reg.frontends[r.id].isProtected;
      Added(reg.(frontends := reg.frontends[r.id := Frontend(r.id, current, guarded, versions)]))
  }

  function Applied(reg: Registry, r: Registration): Registry {
    var res := Register(reg, r);
    if res.Added? then res.registry else reg
  }

  /** The registry after a run of registrations, refused ones included. */
  function After(reg: Registry, rs: seq<Registration>): Registry {
    if rs == [] then reg else Applied(After(reg, rs[..|rs| - 1]), rs[|rs| - 1])
  }

  function Installed(reg: Registry, id: string, v: string): Option<Version> {
    if id in reg.frontends && v in reg.frontends[id].versions then Some(reg.frontends[id].versions[v]) else None
  }

  predicate Concerns(r: Registration, id: string, v: string) {
    r.id == id && r.version.version == v && IsSafeFrontendId(id) && IsValidSemver(v)
  }

  /** The first registration of a version is the one that counts. */
  function FirstOf(rs: seq<Registration>, id: string, v: string): Option<Version> {
    if rs == [] then None
    else
      var before := FirstOf(rs[..|rs| - 1], id, v);
      var last := rs[|rs| - 1];
      if before.Some? then before else if Concerns(last, id, v) then Some(last.version) else None
  }

  /**
   What is installed after any run: what was installed stays as it was, and a new version is
   exactly the first one registered under its number.
   */
  lemma {:induction false} InstalledAfter(reg: Registry, rs: seq<Registration>, id: string, v: string)
    ensures Installed(After(reg, rs), id, v) ==
            if Installed(reg, id, v).Some? then Installed(reg, id, v) else FirstOf(rs, id, v)
  {
    if rs != [] {
      InstalledAfter(reg, rs[..|rs| - 1], id, v);
    }
  }

  predicate PointersInstalled(reg: Registry) {
    forall id :: id in reg.frontends ==> reg.frontends[id].currentVersion in reg.frontends[id].versions
  }

  /** Every current version stays installed, whatever is registered, and the rest of the registry stays as it was. */
  lemma {:induction false} PointersStayInstalled(reg: Registry, rs: seq<Registration>)
    requires PointersInstalled(reg)
    ensures PointersInstalled(After(reg, rs))
    ensures After(reg, rs).schemaVersion == reg.schemaVersion && After(reg, rs).updatedAt == reg.updatedAt
  {
    if rs != [] {
      PointersStayInstalled(reg, rs[..|rs| - 1]);
    }
  }

  lemma NewFrontendGood(reg: Registry, r: Registration)
    requires WellFormed(reg) && GoodVersion(r.version) && Register(reg, r).Added?
    ensures GoodFrontend(r.id, Register(reg, r).registry.frontends[r.id])
  {
    var versions := if r.id in reg.frontends then reg.frontends[r.id].versions else map[];
    if r.id in reg.frontends {
      assert GoodFrontend(r.id, reg.frontends[r.id]);
    }
    EveryGrows(versions, GoodEntry, r.version.version, r.version);
  }

  lemma WellFormedStep(reg: Registry, r: Registration)
    requires WellFormed(reg) && GoodVersion(r.version)
    ensures WellFormed(Applied(reg, r))
  {
    if Register(reg, r).Added? {
      NewFrontendGood(reg, r);
      EveryGrows(reg.frontends, GoodFrontend, r.id, Register(reg, r).registry.frontends[r.id]);
    }
  }

  /** Registering good entries keeps a registry well formed. */
  lemma {:induction false} WellFormedAfter(reg: Registry, rs: seq<Registration>)
    requires WellFormed(reg) && forall i :: 0 <= i < |rs| ==> GoodVersion(rs[i].version)
    ensures WellFormed(After(reg, rs))
  {
    if rs != [] {
      WellFormedAfter(reg, rs[..|rs| - 1]);
      WellFormedStep(After(reg, rs[..|rs| - 1]), rs[|rs| - 1]);
    }
  }

  /** Whatever good entries are installed into an empty registry, its document parses back to it. */
  lemma BuiltRegistriesParse(now: string, rs: seq<Registration>)
    requires now != "" && forall i :: 0 <= i < |rs| ==> GoodVersion(rs[i].version)
    ensures var reg := After(EmptyRegistry(now), rs);
            reg.frontends != map[] ==> ReadRegistry(Print(reg), reg.schemaVersion) == Some(reg)
  {
    WellFormedAfter(EmptyRegistry(now), rs);
    PrintRoundTrip(After(EmptyRegistry(now), rs));
  }

  /** The last registration of the run is for `id` and is granted. */
  predicate Granted(reg: Registry, rs: seq<Registration>, id: string)
    requires rs != []
  {
    rs[|rs| - 1].id == id && Register(After(reg, rs[..|rs| - 1]), rs[|rs| - 1]).Added?
  }

  /** The first version of a frontend that was not there before. */
  function FirstGranted(reg: Registry, rs: seq<Registration>, id: string): Option<string> {
    if rs == [] then None
    else
      var before := FirstGranted(reg, rs[..|rs| - 1], id);
      if before.None? && Granted(reg, rs, id) then Some(rs[|rs| - 1].version.version) else before
  }

  /** The version that the last granted request made current. */
  function LastRequested(reg: Registry, rs: seq<Registration>, id: string): Option<string> {
    if rs == [] then None
    else if rs[|rs| - 1].makeCurrent && Granted(reg, rs, id) then Some(rs[|rs| - 1].version.version)
    else LastRequested(reg, rs[..|rs| - 1], id)
  }

  /** The last explicit word on the protection of a frontend. */
  function LastProtection(reg: Registry, rs: seq<Registration>, id: string): Option<bool> {
    if rs == [] then None
    else if rs[|rs| - 1].isProtected.Some? && Granted(reg, rs, id) then rs[|rs| - 1].isProtected
    else LastProtection(reg, rs[..|rs| - 1], id)
  }

  /** The pointer before any request: the old one, or the first version of a new frontend. */
  function FirstPointer(reg: Registry, rs: seq<Registration>, id: string): string {
    if id in reg.frontends then reg.frontends[id].currentVersion else FirstGranted(reg, rs, id).GetOr("")
  }

  lemma RegisterStep(reg: Registry, r: Registration, id: string)
    requires id in reg.frontends ==> reg.frontends[id].currentVersion != ""
    ensures var after, granted := Applied(reg, r).frontends, r.id == id && Register(reg, r).Added?;
            && (id in after <==> id in reg.frontends || granted)
            && (id in after ==>
                  && after[id].currentVersion != ""
                  && after[id].currentVersion ==
                     (if granted && (r.makeCurrent || id !in reg.frontends) then r.version.version else reg.frontends[id].currentVersion)
                  && after[id].isProtected ==
                     (if granted && r.isProtected.Some? then r.isProtected.value else id in reg.frontends && reg.frontends[id].isProtected))
  {
    if IsValidSemver(r.version.version) {
      SemverIsSegment(r.version.version);
    }
  }

  /** A frontend is there if it was or a registration was granted; its pointer moves on request only, and then to what was asked for. */
  lemma {:induction false} PointerFollowsRequests(reg: Registry, rs: seq<Registration>, id: string)
    requires id in reg.frontends ==> reg.frontends[id].currentVersion != ""
    ensures id in After(reg, rs).frontends <==> id in reg.frontends || FirstGranted(reg, rs, id).Some?
    ensures FirstGranted(reg, rs, id).None? ==> LastRequested(reg, rs, id).None? && LastProtection(reg, rs, id).None?
    ensures id in After(reg, rs).frontends ==>
            After(reg, rs).frontends[id].currentVersion != "" &&
            After(reg, rs).frontends[id].currentVersion == LastRequested(reg, rs, id).GetOr(FirstPointer(reg, rs, id))
  {
    if rs != [] {
      PointerFollowsRequests(reg, rs[..|rs| - 1], id);
      RegisterStep(After(reg, rs[..|rs| - 1]), rs[|rs| - 1], id);
    }
  }

  /** A frontend stays protected, or unprotected, until a granted registration says otherwise; a new one starts unprotected. */
  lemma {:induction false} ProtectionStays(reg: Registry, rs: seq<Registration>, id: string)
    requires id in reg.frontends ==> reg.frontends[id].currentVersion != ""
    ensures id in After(reg, rs).frontends ==>
            After(reg, rs).frontends[id].isProtected ==
            LastProtection(reg, rs, id).GetOr(id in reg.frontends && reg.frontends[id].isProtected)
  {
    if rs != [] {
      ProtectionStays(reg, rs[..|rs| - 1], id);
      PointerFollowsRequests(reg, rs[..|rs| - 1], id);
      PointerFollowsRequests(reg, rs, id);
      RegisterStep(After(reg, rs[..|rs| - 1]), rs[|rs| - 1], id);
    }
  }

  // ---------------------------------------------------------------- resolution

  const FRONTEND_RUNTIME_VERSION := "1"
  const API_CONTRACT_VERSION := "2"

  datatype Located = Located(
    id: string, version: string, name: string, description: Option<string>, author: Option<string>,
    compatibility: Compatibility, entryUrl: string, styleUrls: seq<string>, assetBaseUrl: string)

  datatype Resolution = Found(frontend: Located) | Failed(faults: seq<ResolveFault>)

  datatype ResolveFault = UnsafeRequest | Uninstalled | CurrentMissing | RuntimeMismatch | ApiMismatch | EntryPath | StylePath(index: nat)

  function Styled(asset: string, styles: seq<string>): seq<string> {
    seq(|styles|, i requires 0 <= i < |styles| => JoinUrlPath([asset, styles[i]]))
  }

  predicate MajorsFit(e: Version, runtime: string, api: string) {
    IsMajorCompatible(e.compatibility.frontendRuntime, runtime) && IsMajorCompatible(e.compatibility.apiContract, api)
  }

  predicate PathsSafe(e: Version) {
    SafePath(e.entry) && forall i :: 0 <= i < |e.styles| ==> SafePath(e.styles[i])
  }

  function LocatedAt(id: string, e: Version, base: string): Located {
    var asset := JoinUrlPath([StripEnd(base), id, e.version]);
    Located(id, e.version, e.name, e.description, e.author, e.compatibility, JoinUrlPath([asset, e.entry]),
            Styled(asset, e.styles), asset)
  }

  /** The version that the pointer of a frontend names. */
  function CurrentOf(reg: Registry, id: string): Option<Version> {
    if id in reg.frontends then Installed(reg, id, reg.frontends[id].currentVersion) else None
  }

  predicate Resolves(reg: Registry, id: string, runtime: string, api: string) {
    var e := CurrentOf(reg, id);
    IsSafeFrontendId(id) && e.Some? && PathsSafe(e.value) && MajorsFit(e.value, runtime, api)
  }

  method StyleFaults(styles: seq<string>) returns (faults: seq<ResolveFault>)
    ensures faults == [] <==> forall i :: 0 <= i < |styles| ==> SafePath(styles[i])
  {
    faults := [];
    for i := 0 to |styles|
      invariant faults == [] <==> forall j :: 0 <= j < i ==> SafePath(styles[j])
    {
      CheckAcceptsSafePaths(styles[i]);
      if CheckRelativeAssetPath(styles[i]).Some? {
        faults := faults + [StylePath(i)];
      }
    }
  }

  /** `resolveFrontend` on any registry, well formed or not. */
  method ResolveFrontend(reg: Registry, requested: Option<string>, base: string, runtime: Option<string>, api: Option<string>)
    returns (r: Resolution)
    ensures r.Found? <==> requested.Some? && Resolves(reg, requested.value, runtime.GetOr("1"), api.GetOr("2"))
    ensures r.Found? ==> r.frontend == LocatedAt(requested.value, CurrentOf(reg, requested.value).value, base)
    ensures r.Failed? ==> r.faults != []
  {
    if requested == None || !IsSafeFrontendId(requested.value) {
      return Failed([UnsafeRequest]);
    }
    var id := requested.value;
    if id !in reg.frontends {
      return Failed([Uninstalled]);
    }
    var f := reg.frontends[id];
    if f.currentVersion !in f.versions {
      return Failed([CurrentMissing]);
    }
    var e := f.versions[f.currentVersion];
    var faults: seq<ResolveFault> := [];
    if !IsMajorCompatible(e.compatibility.frontendRuntime, runtime.GetOr(FRONTEND_RUNTIME_VERSION)) {
      faults := faults + [RuntimeMismatch];
    }
    if !IsMajorCompatible(e.compatibility.apiContract, api.GetOr(API_CONTRACT_VERSION)) {
      faults := faults + [ApiMismatch];
    }
    CheckAcceptsSafePaths(e.entry);
    if CheckRelativeAssetPath(e.entry).Some? {
      faults := faults + [EntryPath];
    }
    var styles := StyleFaults(e.styles);
    faults := faults + styles;
    if faults != [] {
      return Failed(faults);
    }
    return Found(LocatedAt(id, e, base));
  }

  /** The version is served from its own place below the base. */
  predicate Placed(l: Located, e: Version, base: string, id: string) {
    l.id == id && l.version == e.version && l.name == e.name && l.description == e.description && l.author == e.author &&
    l.compatibility == e.compatibility && l.assetBaseUrl == Root(base) + "/" + id + "/" + e.version &&
    l.entryUrl == UrlOf(base, id, e.version, e.entry) && |l.styleUrls| == |e.styles| &&
    forall i :: 0 <= i < |e.styles| ==> l.styleUrls[i] == UrlOf(base, id, e.version, e.styles[i])
  }

  /**
   On a well-formed registry only an unsafe id, an uninstalled frontend or a major mismatch
   fails, and what is found is the current version at its own place below the base.
   */
  lemma WellFormedResolves(reg: Registry, id: string, base: string, runtime: string, api: string)
    requires WellFormed(reg)
    ensures id in reg.frontends ==> CurrentOf(reg, id).Some?
    ensures Resolves(reg, id, runtime, api) <==>
            IsSafeFrontendId(id) && id in reg.frontends &&
            var needs := CurrentOf(reg, id).value.compatibility;
            IsMajorCompatible(needs.frontendRuntime, runtime) && IsMajorCompatible(needs.apiContract, api)
    ensures Resolves(reg, id, runtime, api) ==>
            var e := CurrentOf(reg, id).value;
            e.version == reg.frontends[id].currentVersion && Placed(LocatedAt(id, e, base), e, base, id)
  {
    if id in reg.frontends {
      var f := reg.frontends[id];
      assert GoodFrontend(id, f);
      assert GoodEntry(f.currentVersion, f.versions[f.currentVersion]);
      LocatedUrls(id, CurrentOf(reg, id).value, base);
    }
  }

  /** The same for whatever the parser accepts. */
  lemma ParsedResolves(raw: Json, schema: real, id: string, base: string, runtime: string, api: string)
    ensures match ReadRegistry(raw, schema)
            case None => true
            case Some(reg) =>
              var e := CurrentOf(reg, id);
              (Resolves(reg, id, runtime, api) <==>
                IsSafeFrontendId(id) && id in reg.frontends && e.Some? &&
                IsMajorCompatible(e.value.compatibility.frontendRuntime, runtime) && IsMajorCompatible(e.value.compatibility.apiContract, api)) &&
              (id in reg.frontends ==> e.Some?) &&
              (Resolves(reg, id, runtime, api) ==> Placed(LocatedAt(id, e.value, base), e.value, base, id))
  {
    var read := ReadRegistry(raw, schema);
    ReadWellFormed(raw, schema);
    if read.Some? {
      WellFormedResolves(read.value, id, base, runtime, api);
    }
  }

  function UrlOf(base: string, id: string, version: string, path: string): string {
    Root(base) + "/" + id + "/" + version + "/" + path
  }

  lemma IdIsSegment(id: string)
    requires IsSafeFrontendId(id)
    ensures Bare(id) && '/' !in id && Clean(id)
  {
    assert forall i :: 0 <= i < |id| ==> id[i] != '/' by {
      assert forall i :: 0 <= i < |id| ==> IdChar(id[i]);
    }
  }

  lemma VersionIsSegment(v: string)
    requires IsValidSemver(v)
    ensures Bare(v) && '/' !in v && Clean(v)
  {
    SemverIsSegment(v);
    assert forall i :: 0 <= i < |v| ==> v[i] != '/' by {
      assert forall i :: 0 <= i < |v| ==> VersionChar(v[i]);
    }
  }

  lemma LocatedUrls(id: string, e: Version, base: string)
    requires IsSafeFrontendId(id) && GoodVersion(e)
    ensures Placed(LocatedAt(id, e, base), e, base, id)
  {
    IdIsSegment(id);
    VersionIsSegment(e.version);
    JoinAssetBase(base, id, e.version);
    var asset := Root(base) + "/" + id + "/" + e.version;
    assert Bare(e.entry);
    JoinEntry(asset, e.entry);
    forall i | 0 <= i < |e.styles| ensures JoinUrlPath([asset, e.styles[i]]) == asset + "/" + e.styles[i] {
      assert Bare(e.styles[i]);
      JoinEntry(asset, e.styles[i]);
    }
  }

  /** A URL survives dot-segment removal exactly when the configured base does. */
  lemma UrlFixedIffBaseFixed(base: string, id: string, version: string, path: string)
    requires IsSafeFrontendId(id) && IsValidSemver(version) && SafePath(path)
    ensures RemoveDotSegments(UrlOf(base, id, version, path)) == UrlOf(base, id, version, path) <==>
            RemoveDotSegments(base) == base
  {
    IdIsSegment(id);
    VersionIsSegment(version);
    assert Clean(path);
    CleanStripEnd(base);
    CleanJoin("", StripEnd(base));
    assert "/" + StripEnd(base) == "" + "/" + StripEnd(base);
    CleanJoin(Root(base), id);
    CleanJoin(Root(base) + "/" + id, version);
    CleanJoin(Root(base) + "/" + id + "/" + version, path);
    FixedPointIffClean(UrlOf(base, id, version, path));
    FixedPointIffClean(base);
  }

  lemma SlashFreeHead(a: string, b: string, s: string, t: string)
    requires '/' !in a && '/' !in b && a + "/" + s == b + "/" + t
    ensures a == b && s == t
  {
    var u, w := a + "/" + s, b + "/" + t;
    assert u[|a|] == '/' && w[|b|] == '/';
    assert forall i :: 0 <= i < |a| ==> u[i] == a[i];
    assert forall i :: 0 <= i < |b| ==> w[i] == b[i];
    assert |a| == |b|;
    assert a == u[..|a|] == b;
    assert s == u[|a| + 1..] && t == w[|b| + 1..];
  }

  lemma SegmentsDistinct(root: string, a1: string, b1: string, p1: string, a2: string, b2: string, p2: string)
    requires '/' !in a1 && '/' !in a2 && '/' !in b1 && '/' !in b2
    requires root + "/" + a1 + "/" + b1 + "/" + p1 == root + "/" + a2 + "/" + b2 + "/" + p2
    ensures a1 == a2 && b1 == b2 && p1 == p2
  {
    var r := root + "/";
    var s, t := a1 + "/" + (b1 + "/" + p1), a2 + "/" + (b2 + "/" + p2);
    assert root + "/" + a1 + "/" + b1 + "/" + p1 == r + s;
    assert root + "/" + a2 + "/" + b2 + "/" + p2 == r + t;
    assert s == (r + s)[|r|..] && t == (r + t)[|r|..];
    SlashFreeHead(a1, a2, b1 + "/" + p1, b2 + "/" + p2);
    SlashFreeHead(b1, b2, p1, p2);
  }

  /** No two assets share a URL. */
  lemma UrlsDistinct(base: string, id1: string, v1: string, p1: string, id2: string, v2: string, p2: string)
    requires IsSafeFrontendId(id1) && IsSafeFrontendId(id2) && IsValidSemver(v1) && IsValidSemver(v2)
    requires UrlOf(base, id1, v1, p1) == UrlOf(base, id2, v2, p2)
    ensures id1 == id2 && v1 == v2 && p1 == p2
  {
    IdIsSegment(id1);
    IdIsSegment(id2);
    VersionIsSegment(v1);
    VersionIsSegment(v2);
    SegmentsDistinct(Root(base), id1, v1, p1, id2, v2, p2);
  }
}

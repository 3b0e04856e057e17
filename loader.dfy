/**
 * The skill registry: it discovers `SKILL.md` files below a skills
 * directory, records each skill's name and description from the YAML
 * front matter, and loads and caches skill bodies. The file store is an
 * abstract map from file path to text; parsing YAML is a parameter.
 */
module Loader {
  import opened Wrappers
  import opened Text
  import opened Splitting
  import opened Paths
  import opened Values

  const FrontMatterMark: string := "---"
  const SkillFileName: string := "SKILL.md"

  /** What `yaml.safe_load` made of a front matter block: a value, or an error. */
  type YamlParser = string -> Result<Value, string>

  /** `str(v)`: the text an f-string shows for a parsed value. */
  type Renderer = Value -> string

  /**
   * What decides whether two dictionary keys are one key: `None`, a
   * number (`True` is 1, and `1 == 1.0`), an infinity, NaN or a string.
   * Lists and mappings cannot be keys.
   */
  datatype KeyClass = NoneKey | NumberKey(r: real) | PosInfKey | NegInfKey | NaNKey | TextKey(s: string) | Unhashable

  function KeyClassOf(v: Value): KeyClass {
    match v
    case Null => NoneKey
    case Bool(b) => NumberKey(if b then 1.0 else 0.0)
    case Int(i) => NumberKey(i as real)
    case Float(Finite(r)) => NumberKey(r)
    case Float(PosInf) => PosInfKey
    case Float(NegInf) => NegInfKey
    case Float(NaN) => NaNKey
    case Str(t) => TextKey(t)
    case List(_) => Unhashable
    case Mapping(_) => Unhashable
  }

  /** `hash(v)` succeeds. */
  predicate Hashable(v: Value) {
    !KeyClassOf(v).Unhashable?
  }

  /**
   * Two keys find the same dictionary entry. A NaN read from a document is
   * a fresh object equal to no key, itself included.
   */
  predicate SameKey(a: Value, b: Value) {
    KeyClassOf(a) == KeyClassOf(b) && !KeyClassOf(a).NaNKey?
  }

  /** An insertion-ordered dictionary from skill name to description. */
  type Descriptions = seq<(Value, Value)>

  predicate DistinctKeys(ds: Descriptions) {
    forall i, j :: 0 <= i < j < |ds| ==> !SameKey(ds[i].0, ds[j].0)
  }

  /** `d.get(k)`. */
  function Lookup(ds: Descriptions, k: Value): (r: Option<Value>)
    ensures r.Some? <==> exists i :: 0 <= i < |ds| && SameKey(ds[i].0, k)
  {
    if ds == [] then None
    else if SameKey(ds[|ds| - 1].0, k) then Some(ds[|ds| - 1].1)
    else Lookup(ds[..|ds| - 1], k)
  }

  /**
   * `d[k] = v`: an entry with an equal key keeps its position and its
   * original key and takes the new value; a new key goes last.
   */
  function Put(ds: Descriptions, k: Value, v: Value): (r: Descriptions)
  {
    if ds == [] then [(k, v)]
    else if SameKey(ds[0].0, k) then [(ds[0].0, v)] + ds[1..]
    else [ds[0]] + Put(ds[1..], k, v)
  }

  /** `m.get(k, d)` on the front matter mapping. */
  function Field(m: map<string, Value>, k: string, d: Value): Value {
    if k in m then m[k] else d
  }

  /** The block between the first two marks, when the text has both. */
  function FrontMatter(content: string): (r: Option<string>)
    ensures r.Some? <==> |SplitN(content, FrontMatterMark, 2)| >= 3
  {
    var parts := SplitN(content, FrontMatterMark, 2);
    if |parts| < 3 then None else Some(parts[1])
  }

  /** The name a skill file gives, its directory's name when the front matter has none. */
  function NameOf(path: PurePath, meta: map<string, Value>): Value {
    Field(meta, "name", Str(Name(Parent(path))))
  }

  function DescriptionOf(meta: map<string, Value>): Value {
    Field(meta, "description", Str("No description"))
  }

  /**
   * The name and description one `SKILL.md` contributes, if it is
   * readable and has front matter that parses to a mapping; a name that
   * cannot be a key makes the assignment raise, so nothing is recorded.
   * The values are recorded as parsed, whatever their type.
   */
  function SkillMetadata(path: PurePath, text: Option<string>, parseYaml: YamlParser): (r: Option<(Value, Value)>)
    ensures r.Some? <==>
              && text.Some? && FrontMatter(text.value).Some?
              && parseYaml(FrontMatter(text.value).value).Ok?
              && parseYaml(FrontMatter(text.value).value).value.Mapping?
              && Hashable(NameOf(path, parseYaml(FrontMatter(text.value).value).value.entries))
    ensures r.Some? ==>
              var meta := parseYaml(FrontMatter(text.value).value).value.entries;
              r.value == (NameOf(path, meta), DescriptionOf(meta))
  {
    match text
    case None => None
    case Some(content) =>
      match FrontMatter(content)
      case None => None
      case Some(block) =>
        match parseYaml(block)
        case Err(_) => None
        case Ok(meta) =>
          if !meta.Mapping? then None
          else
            var name := NameOf(path, meta.entries);
            if !Hashable(name) then None else Some((name, DescriptionOf(meta.entries)))
  }

  /** The metadata of the file at `p` in the store, if any. */
  function FileMetadata(p: PurePath, files: map<PurePath, string>, parseYaml: YamlParser): Option<(Value, Value)> {
    SkillMetadata(p, if p in files then Some(files[p]) else None, parseYaml)
  }

  /** The metadata of every path in the store. */
  function MetaOf(files: map<PurePath, string>, parseYaml: YamlParser): PurePath -> Option<(Value, Value)> {
    p => FileMetadata(p, files, parseYaml)
  }

  /** The descriptions a scan of `found`, in that order, leaves behind, given each file's metadata. */
  function ScanAll(found: seq<PurePath>, meta: PurePath -> Option<(Value, Value)>): Descriptions
    decreases |found|
  {
    if found == [] then []
    else
      var ds := ScanAll(found[..|found| - 1], meta);
      match meta(found[|found| - 1])
      case None => ds
      case Some(entry) => Put(ds, entry.0, entry.1)
  }

  /** One line of the listing. */
  function ListingLine(entry: (Value, Value), render: Renderer): string {
    "- " + render(entry.0) + ": " + render(entry.1)
  }

  /** The scan's result: one line per description, in insertion order. */
  function Listing(ds: Descriptions, render: Renderer): string {
    JoinWith("\n", seq(|ds|, i requires 0 <= i < |ds| => ListingLine(ds[i], render)))
  }

  /** The body of a skill file: the text after the front matter, or the whole text, stripped. */
  function Body(content: string): string {
    var parts := SplitN(content, FrontMatterMark, 2);
    if |parts| >= 3 then Strip(parts[|parts| - 1]) else Strip(content)
  }

  /** `skills_dir / name / "SKILL.md"`. */
  function SkillFile(dir: PurePath, name: string): PurePath {
    JoinStr(JoinStr(dir, name), SkillFileName)
  }

  /** What loading `name` yields: the cached body, else the body of the file, else nothing. */
  function Effective(cache: map<string, string>, files: map<PurePath, string>, dir: PurePath, name: string): Option<string> {
    if name in cache then Some(cache[name])
    else if SkillFile(dir, name) in files then Some(Body(files[SkillFile(dir, name)]))
    else None
  }

  /** The header and body of one skill in the combined text. */
  function Section(name: string, content: string): string {
    "=== SKILL: " + name + " ===\n" + content
  }

  /** What loading each name yields under a cache and a file store. */
  function Loads(cache: map<string, string>, files: map<PurePath, string>, dir: PurePath): string -> Option<string> {
    n => Effective(cache, files, dir, n)
  }

  /** The sections for `names`: one per name whose loaded content is present and non-empty. */
  function Sections(names: seq<string>, content: string -> Option<string>): seq<string>
    decreases |names|
  {
    if names == [] then []
    else
      var rest := Sections(names[..|names| - 1], content);
      var n := names[|names| - 1];
      match content(n)
      case Some(c) => if c != [] then rest + [Section(n, c)] else rest
      case None => rest
  }

  /** The combined skill text. */
  function Combined(names: seq<string>, content: string -> Option<string>): string {
    JoinWith("\n\n", Sections(names, content))
  }

  /** Two caches under which every load yields the same. */
  ghost predicate SameLoads(c1: map<string, string>, c2: map<string, string>, files: map<PurePath, string>, dir: PurePath) {
    forall n :: Effective(c1, files, dir, n) == Effective(c2, files, dir, n)
  }

  /** The skills directory a registry built with no argument scans, as the stages' module-level registry is. */
  const DefaultSkillsDir: string := "./skills"

  class SkillRegistry {
    const skillsDir: PurePath
    /** The file store: the text of every readable file, by path. */
    var files: map<PurePath, string>
    var descriptions: Descriptions
    var cache: map<string, string>

    /** A registry over `skillsDir` with nothing scanned and nothing cached. */
    constructor(skillsDir: string, files: map<PurePath, string>)
      ensures this.skillsDir == Parse(skillsDir) && this.files == files
      ensures descriptions == [] && cache == map[]
    {
      this.skillsDir := Parse(skillsDir);
      this.files := files;
      descriptions := [];
      cache := map[];
    }

    /**
     * Forgets the previous scan, records the metadata of every file in
     * `found` (the order in which the directory walk yields the `SKILL.md`
     * files) and returns the listing.
     */
    method ScanSkills(found: seq<PurePath>, parseYaml: YamlParser, render: Renderer) returns (listing: string)
      modifies this`descriptions
      ensures descriptions == ScanAll(found, MetaOf(files, parseYaml))
      ensures listing == Listing(descriptions, render)
    {
      descriptions := [];
      for i := 0 to |found|
        invariant descriptions == ScanAll(found[..i], MetaOf(files, parseYaml))
      {
        var p := found[i];
        assert found[..i + 1][..i] == found[..i];
        match FileMetadata(p, files, parseYaml)
        case None =>
        case Some(entry) =>
          descriptions := Put(descriptions, entry.0, entry.1);
      }
      assert found[..|found|] == found;
      listing := Listing(descriptions, render);
    }

    /** The body of skill `name`, from the cache if it is there; a found body is cached. */
    method LoadSkillContent(name: string) returns (r: Option<string>)
      modifies this`cache
      ensures r == Effective(old(cache), files, skillsDir, name)
      ensures cache == if name in old(cache) || r.None? then old(cache) else old(cache)[name := r.value]
    {
      if name in cache {
        return Some(cache[name]);
      }
      var path := SkillFile(skillsDir, name);
      if path !in files {
        return None;
      }
      var body := Body(files[path]);
      cache := cache[name := body];
      return Some(body);
    }

    /** The combined text of the skills `names`, in order, skipping missing and empty ones. */
    method GetCombinedSkillContent(names: seq<string>) returns (r: string)
      modifies this`cache
      ensures r == Combined(names, Loads(old(cache), files, skillsDir))
      ensures SameLoads(cache, old(cache), files, skillsDir)
    {
      ghost var cache0 := cache;
      var sections: seq<string> := [];
      for i := 0 to |names|
        invariant SameLoads(cache, cache0, files, skillsDir)
        invariant sections == Sections(names[..i], Loads(cache0, files, skillsDir))
      {
        ghost var before := cache;
        var content := LoadSkillContent(names[i]);
        CacheStable(before, files, skillsDir, names[i]);
        SameLoadsTrans(cache, before, cache0, files, skillsDir);
        SameLoadsAt(before, cache0, files, skillsDir, names[i]);
        SectionsStep(names, i, Loads(cache0, files, skillsDir), content);
        if content.Some? && content.value != [] {
          sections := sections + [Section(names[i], content.value)];
        }
      }
      assert names[..|names|] == names;
      r := JoinWith("\n\n", sections);
    }
  }

  // ----- lemmas -----

  /** Caching a freshly loaded body changes what no later load yields. */
  lemma {:induction false} CacheStable(cache: map<string, string>, files: map<PurePath, string>, dir: PurePath, name: string)
    ensures var r := Effective(cache, files, dir, name);
            var cache' := if name in cache || r.None? then cache else cache[name := r.value];
            SameLoads(cache', cache, files, dir)
  {
  }

  /** One more name adds its section exactly when its content is present and non-empty. */
  lemma {:induction false} SectionsStep(names: seq<string>, i: nat, content: string -> Option<string>, c: Option<string>)
    requires i < |names| && content(names[i]) == c
    ensures Sections(names[..i + 1], content) ==
              if c.Some? && c.value != [] then Sections(names[..i], content) + [Section(names[i], c.value)]
              else Sections(names[..i], content)
  {
    assert names[..i + 1][..i] == names[..i];
  }

  lemma {:induction false} SameLoadsTrans(c1: map<string, string>, c2: map<string, string>, c3: map<string, string>,
                                          files: map<PurePath, string>, dir: PurePath)
    requires SameLoads(c1, c2, files, dir) && SameLoads(c2, c3, files, dir)
    ensures SameLoads(c1, c3, files, dir)
  {
    forall n ensures Effective(c1, files, dir, n) == Effective(c3, files, dir, n) {
      assert Effective(c1, files, dir, n) == Effective(c2, files, dir, n);
    }
  }

  lemma {:induction false} SameLoadsAt(c1: map<string, string>, c2: map<string, string>,
                                       files: map<PurePath, string>, dir: PurePath, n: string)
    requires SameLoads(c1, c2, files, dir)
    ensures Effective(c1, files, dir, n) == Effective(c2, files, dir, n)
  {
  }

  /** The position of the entry with a key equal to `k`, if there is one. */
  function KeyIndex(ds: Descriptions, k: Value): (r: Option<nat>)
    ensures r.Some? ==> r.value < |ds| && SameKey(ds[r.value].0, k)
    ensures r.None? ==> forall i :: 0 <= i < |ds| ==> !SameKey(ds[i].0, k)
  {
    if ds == [] then None
    else if SameKey(ds[0].0, k) then Some(0)
    else match KeyIndex(ds[1..], k)
      case Some(i) => Some(i + 1)
      case None => None
  }

  /** Assignment to an existing key replaces its value in place and keeps the key; a new key is appended. */
  lemma {:induction false} PutInPlace(ds: Descriptions, k: Value, v: Value)
    ensures Put(ds, k, v) == match KeyIndex(ds, k)
                             case Some(i) => ds[i := (ds[i].0, v)]
                             case None => ds + [(k, v)]
  {
    if ds == [] {
    } else if SameKey(ds[0].0, k) {
      assert KeyIndex(ds, k) == Some(0);
      ConsUpdate(ds, 0, (ds[0].0, v));
    } else {
      var tail := ds[1..];
      PutInPlace(tail, k, v);
      assert Put(ds, k, v) == [ds[0]] + Put(tail, k, v);
      match KeyIndex(tail, k)
      case Some(i) =>
        assert KeyIndex(ds, k) == Some(i + 1);
        ConsUpdate(ds, i + 1, (tail[i].0, v));
      case None =>
        assert KeyIndex(ds, k) == None;
        assert [ds[0]] + (tail + [(k, v)]) == ds + [(k, v)];
    }
  }

  /** Updating entry `i` of a non-empty list is updating its tail at `i - 1` (or its head, for 0). */
  lemma {:induction false} ConsUpdate(ds: Descriptions, i: nat, e: (Value, Value))
    requires i < |ds|
    ensures i == 0 ==> [e] + ds[1..] == ds[i := e]
    ensures i > 0 ==> [ds[0]] + ds[1..][i - 1 := e] == ds[i := e]
  {
    var u := ds[i := e];
    if i == 0 {
      var c := [e] + ds[1..];
      assert forall j :: 0 <= j < |ds| ==> c[j] == u[j];
    } else {
      var c := [ds[0]] + ds[1..][i - 1 := e];
      assert forall j :: 0 <= j < |ds| ==> c[j] == u[j];
    }
  }

  /** Assignment keeps the keys distinct. */
  lemma {:induction false} PutDistinct(ds: Descriptions, k: Value, v: Value)
    requires DistinctKeys(ds)
    ensures DistinctKeys(Put(ds, k, v))
  {
    PutInPlace(ds, k, v);
    var r := Put(ds, k, v);
    match KeyIndex(ds, k)
    case Some(i) =>
      assert forall j :: 0 <= j < |r| ==> r[j].0 == ds[j].0;
    case None =>
      assert forall j :: 0 <= j < |ds| ==> r[j] == ds[j];
  }

  /** After assignment an equal key finds the new value, and every other key what it found before. */
  lemma {:induction false} PutLookup(ds: Descriptions, k: Value, v: Value, k': Value)
    requires DistinctKeys(ds)
    ensures Lookup(Put(ds, k, v), k') == if SameKey(k', k) then Some(v) else Lookup(ds, k')
  {
    PutInPlace(ds, k, v);
    PutDistinct(ds, k, v);
    match KeyIndex(ds, k)
    case Some(i) => PutLookupOverwrite(ds, k, v, k', i);
    case None => PutLookupAppend(ds, k, v, k');
  }

  /** `PutLookup` when `k` is already a key, at index `i`. */
  lemma {:induction false} PutLookupOverwrite(ds: Descriptions, k: Value, v: Value, k': Value, i: nat)
    requires DistinctKeys(ds) && i < |ds| && SameKey(ds[i].0, k)
    requires DistinctKeys(ds[i := (ds[i].0, v)])
    ensures Lookup(ds[i := (ds[i].0, v)], k') == if SameKey(k', k) then Some(v) else Lookup(ds, k')
  {
    var r := ds[i := (ds[i].0, v)];
    LookupDistinct(r, k');
    LookupDistinct(ds, k');
    assert forall j :: 0 <= j < |r| ==> r[j].0 == ds[j].0;
  }

  /** `PutLookup` when `k` is a new key. */
  lemma {:induction false} PutLookupAppend(ds: Descriptions, k: Value, v: Value, k': Value)
    requires DistinctKeys(ds) && DistinctKeys(ds + [(k, v)])
    requires forall j :: 0 <= j < |ds| ==> !SameKey(ds[j].0, k)
    ensures Lookup(ds + [(k, v)], k') == if SameKey(k', k) then Some(v) else Lookup(ds, k')
  {
    var r := ds + [(k, v)];
    assert r[..|r| - 1] == ds;
  }

  /** With distinct keys, the lookup finds the one entry with an equal key. */
  lemma {:induction false} LookupDistinct(ds: Descriptions, k: Value)
    requires DistinctKeys(ds)
    ensures forall i :: 0 <= i < |ds| && SameKey(ds[i].0, k) ==> Lookup(ds, k) == Some(ds[i].1)
  {
    if ds != [] && !SameKey(ds[|ds| - 1].0, k) {
      var front := ds[..|ds| - 1];
      LookupDistinct(front, k);
      assert forall i :: 0 <= i < |front| ==> front[i] == ds[i];
    }
  }

  /** `d = {1: a}; d[True] = b` leaves the one key 1, now with the value b. */
  lemma {:induction false} EqualNumbersShareKey(a: Value, b: Value)
    ensures Put([(Int(1), a)], Bool(true), b) == [(Int(1), b)]
    ensures Put([(Int(1), a)], Float(Finite(1.0)), b) == [(Int(1), b)]
    ensures Put([(Str("1"), a)], Int(1), b) == [(Str("1"), a), (Int(1), b)]
  {
    assert [(Int(1), a)][1..] == [];
    assert [(Str("1"), a)][1..] == [];
  }

  /** Each NaN name is a key of its own: two of them make two entries. */
  lemma {:induction false} NaNKeysStayApart(a: Value, b: Value)
    ensures Put([(Float(NaN), a)], Float(NaN), b) == [(Float(NaN), a), (Float(NaN), b)]
  {
    assert [(Float(NaN), a)][1..] == [];
  }

  /** A scan leaves distinct names. */
  lemma {:induction false} ScanDistinct(found: seq<PurePath>, meta: PurePath -> Option<(Value, Value)>)
    ensures DistinctKeys(ScanAll(found, meta))
    decreases |found|
  {
    if found != [] {
      ScanDistinct(found[..|found| - 1], meta);
      var ds := ScanAll(found[..|found| - 1], meta);
      var p := found[|found| - 1];
      match meta(p)
      case None =>
      case Some(entry) => PutDistinct(ds, entry.0, entry.1);
    }
  }

  /** The last file naming a skill (with anything but NaN) decides its description. */
  lemma {:induction false} ScanLaterWins(found: seq<PurePath>, meta: PurePath -> Option<(Value, Value)>,
                                         name: Value, desc: Value)
    requires found != []
    requires meta(found[|found| - 1]) == Some((name, desc))
    requires !KeyClassOf(name).NaNKey?
    ensures Lookup(ScanAll(found, meta), name) == Some(desc)
  {
    ScanDistinct(found[..|found| - 1], meta);
    PutLookup(ScanAll(found[..|found| - 1], meta), name, desc, name);
  }

  /** Some file of `found` names the key `k`. */
  ghost predicate KeyContributed(found: seq<PurePath>, meta: PurePath -> Option<(Value, Value)>, k: Value) {
    exists i :: 0 <= i < |found| && meta(found[i]).Some? && meta(found[i]).value.0 == k
  }

  /** Some file of `found` gives the description `d` under a name equal to `k`. */
  ghost predicate DescContributed(found: seq<PurePath>, meta: PurePath -> Option<(Value, Value)>, k: Value, d: Value) {
    exists i :: 0 <= i < |found| && meta(found[i]).Some? && meta(found[i]).value.1 == d &&
                KeyClassOf(meta(found[i]).value.0) == KeyClassOf(k)
  }

  /** Both halves of an entry come from the scanned files. */
  ghost predicate Contributed(found: seq<PurePath>, meta: PurePath -> Option<(Value, Value)>, e: (Value, Value)) {
    KeyContributed(found, meta, e.0) && DescContributed(found, meta, e.0, e.1)
  }

  /**
   * Every entry left by a scan has a name and a description from the
   * scanned files; nothing from an earlier scan survives.
   */
  lemma {:induction false} ScanEntriesFromFiles(found: seq<PurePath>, meta: PurePath -> Option<(Value, Value)>)
    ensures forall j :: 0 <= j < |ScanAll(found, meta)| ==> Contributed(found, meta, ScanAll(found, meta)[j])
    decreases |found|
  {
    if found != [] {
      var front := found[..|found| - 1];
      ScanEntriesFromFiles(front, meta);
      var ds0 := ScanAll(front, meta);
      var ds := ScanAll(found, meta);
      var p := found[|found| - 1];
      ContributedGrows(front, found, meta);
      match meta(p)
      case None =>
        assert ds == ds0;
        forall j | 0 <= j < |ds| ensures Contributed(found, meta, ds[j]) {
          assert Contributed(front, meta, ds0[j]);
        }
      case Some(entry) =>
        assert ds == Put(ds0, entry.0, entry.1);
        PutInPlace(ds0, entry.0, entry.1);
        assert meta(found[|found| - 1]) == Some(entry);
        forall j | 0 <= j < |ds| ensures Contributed(found, meta, ds[j]) {
          match KeyIndex(ds0, entry.0)
          case Some(i) =>
            assert ds == ds0[i := (ds0[i].0, entry.1)];
            if j == i {
              assert Contributed(front, meta, ds0[i]);
              assert DescContributed(found, meta, ds[j].0, ds[j].1) by {
                assert meta(found[|found| - 1]).value.1 == ds[j].1;
              }
            } else {
              assert ds[j] == ds0[j];
              assert Contributed(front, meta, ds0[j]);
            }
          case None =>
            assert ds == ds0 + [entry];
            if j < |ds0| {
              assert ds[j] == ds0[j];
              assert Contributed(front, meta, ds0[j]);
            } else {
              assert ds[j] == entry;
            }
        }
    }
  }

  /** What a prefix of the scanned files contributes, the whole scan does. */
  lemma {:induction false} ContributedGrows(front: seq<PurePath>, found: seq<PurePath>,
                                            meta: PurePath -> Option<(Value, Value)>)
    requires |front| <= |found| && front == found[..|front|]
    ensures forall e :: Contributed(front, meta, e) ==> Contributed(found, meta, e)
  {
    forall e | Contributed(front, meta, e) ensures Contributed(found, meta, e) {
      var i :| 0 <= i < |front| && meta(front[i]).Some? && meta(front[i]).value.0 == e.0;
      assert found[i] == front[i];
      var i' :| 0 <= i' < |front| && meta(front[i']).Some? && meta(front[i']).value.1 == e.1 &&
                KeyClassOf(meta(front[i']).value.0) == KeyClassOf(e.0);
      assert found[i'] == front[i'];
    }
  }

  /** A name that is a list or a mapping cannot be a key: the file contributes nothing. */
  lemma {:induction false} UnhashableNameSkipped(path: PurePath, content: string, parseYaml: YamlParser)
    requires FrontMatter(content).Some?
    requires parseYaml(FrontMatter(content).value).Ok?
    requires var meta := parseYaml(FrontMatter(content).value).value;
             meta.Mapping? && "name" in meta.entries && (meta.entries["name"].List? || meta.entries["name"].Mapping?)
    ensures SkillMetadata(path, Some(content), parseYaml) == None
  {
  }

  /** A name or description of any other type is recorded as parsed and shown through `str()`. */
  lemma {:induction false} ScalarNameListed(path: PurePath, content: string, parseYaml: YamlParser, render: Renderer,
                                            name: Value, desc: Value)
    requires FrontMatter(content).Some?
    requires parseYaml(FrontMatter(content).value) == Ok(Mapping(map["name" := name, "description" := desc]))
    requires Hashable(name)
    ensures SkillMetadata(path, Some(content), parseYaml) == Some((name, desc))
    ensures Listing(ScanAll([path], p => SkillMetadata(p, Some(content), parseYaml)), render) ==
              "- " + render(name) + ": " + render(desc)
  {
    var meta := p => SkillMetadata(p, Some(content), parseYaml);
    assert [path][..0] == [];
    assert ScanAll([path], meta) == [(name, desc)];
  }

  /** Joining one more piece appends the separator and the piece. */
  lemma {:induction false} JoinSnoc<T>(sep: seq<T>, parts: seq<seq<T>>, x: seq<T>)
    requires parts != []
    ensures JoinWith(sep, parts + [x]) == JoinWith(sep, parts) + sep + x
    decreases |parts|
  {
    if |parts| == 1 {
      assert parts + [x] == [parts[0], x];
    } else {
      JoinSnoc(sep, parts[1..], x);
      assert (parts + [x])[1..] == parts[1..] + [x];
    }
  }

  /** The listing has one line per description, each new entry on a line of its own at the end. */
  lemma {:induction false} ListingSnoc(ds: Descriptions, e: (Value, Value), render: Renderer)
    ensures Listing(ds + [e], render) ==
              if ds == [] then ListingLine(e, render) else Listing(ds, render) + "\n" + ListingLine(e, render)
  {
    var lines := seq(|ds|, i requires 0 <= i < |ds| => ListingLine(ds[i], render));
    var lines' := seq(|ds + [e]|, i requires 0 <= i < |ds + [e]| => ListingLine((ds + [e])[i], render));
    assert lines' == lines + [ListingLine(e, render)];
    if ds != [] {
      JoinSnoc("\n", lines, ListingLine(e, render));
    }
  }

  /** The combined text of no skills is empty. */
  lemma {:induction false} CombinedNone(content: string -> Option<string>)
    ensures Combined([], content) == ""
  {
  }

  /** A skill whose content is missing or empty leaves no trace in the combined text. */
  lemma {:induction false} SkippedLeavesNoTrace(a: seq<string>, n: string, b: seq<string>, content: string -> Option<string>)
    requires content(n) == None || content(n) == Some("")
    ensures Sections(a + [n] + b, content) == Sections(a + b, content)
    decreases |b|
  {
    if b == [] {
      assert a + [n] + b == a + [n] && a + b == a;
      SectionsSnoc(a, n, content);
    } else {
      var b', x := b[..|b| - 1], b[|b| - 1];
      SkippedLeavesNoTrace(a, n, b', content);
      SnocOf(a + [n], b);
      SnocOf(a, b);
      SectionsSnoc(a + [n] + b', x, content);
      SectionsSnoc(a + b', x, content);
    }
  }

  /** The sections with one more name: its section, if any, comes last. */
  lemma {:induction false} SectionsSnoc(names: seq<string>, x: string, content: string -> Option<string>)
    ensures Sections(names + [x], content) == AddSection(Sections(names, content), x, content(x))
  {
    assert (names + [x])[..|names|] == names;
  }

  /** `rest` followed by the section for `n`, when it has a non-empty body `c`. */
  function AddSection(rest: seq<string>, n: string, c: Option<string>): seq<string> {
    if c.Some? && c.value != [] then rest + [Section(n, c.value)] else rest
  }

  /** `a + b`, for non-empty `b`, is `a + b` without its last element, then that element. */
  lemma {:induction false} SnocOf<T>(a: seq<T>, b: seq<T>)
    requires b != []
    ensures a + b == (a + b[..|b| - 1]) + [b[|b| - 1]]
  {
  }

  /** The sections follow the order of the names: a present skill adds its section at the end. */
  lemma {:induction false} SectionsInOrder(names: seq<string>, n: string, c: string, content: string -> Option<string>)
    requires content(n) == Some(c) && c != ""
    ensures Sections(names + [n], content) == Sections(names, content) + [Section(n, c)]
  {
    assert (names + [n])[..|names|] == names;
  }

  /** A cached body is returned whatever the file store now holds. */
  lemma {:induction false} CachedIgnoresFiles(cache: map<string, string>, f1: map<PurePath, string>,
                                              f2: map<PurePath, string>, dir: PurePath, name: string)
    requires name in cache
    ensures Effective(cache, f1, dir, name) == Effective(cache, f2, dir, name) == Some(cache[name])
  {
  }

  /** A skill without a cached body and without a file loads as nothing. */
  lemma {:induction false} MissingSkillNone(cache: map<string, string>, files: map<PurePath, string>, dir: PurePath, name: string)
    requires name !in cache && SkillFile(dir, name) !in files
    ensures Effective(cache, files, dir, name) == None
  {
  }

  /** Text with a front matter block: the body is what follows its closing mark, stripped. */
  lemma {:induction false} FrontMatterBody(meta: string, rest: string)
    requires forall k :: 0 <= k ==> !OccursAt(meta, FrontMatterMark, k)
    requires meta == [] || meta[|meta| - 1] != '-'
    ensures SplitN(FrontMatterMark + meta + FrontMatterMark + rest, FrontMatterMark, 2) == ["", meta, rest]
    ensures Body(FrontMatterMark + meta + FrontMatterMark + rest) == Strip(rest)
  {
    MarkAfterMeta(meta, rest);
    SplitAtMarks(FrontMatterMark, meta, rest);
  }

  /** Two cuts at a leading mark and at the next one give the empty piece, the block and the rest. */
  lemma {:induction false} SplitAtMarks<T>(mark: seq<T>, meta: seq<T>, rest: seq<T>)
    requires |mark| > 0 && Find(meta + mark + rest, mark, 0) == Some(|meta|)
    ensures SplitN(mark + meta + mark + rest, mark, 2) == [[], meta, rest]
  {
    LeadingCut(mark, meta, rest);
    SecondCut(mark, meta, rest);
    assert [[]] + [meta, rest] == [[], meta, rest];
  }

  /** A leading mark makes an empty first piece. */
  lemma {:induction false} LeadingCut<T>(mark: seq<T>, meta: seq<T>, rest: seq<T>)
    requires |mark| > 0
    ensures SplitN(mark + meta + mark + rest, mark, 2) == [[]] + SplitN(meta + mark + rest, mark, 1)
  {
    var tail := meta + mark + rest;
    var content := mark + tail;
    assert content == mark + meta + mark + rest;
    assert OccursAt(content, mark, 0);
    FindIs(content, mark, 0);
    SplitNCut(content, mark, 2, 0);
    assert content[|mark|..] == tail;
    assert content[..0] == [];
  }

  /** One cut at the first mark after `meta`. */
  lemma {:induction false} SecondCut<T>(mark: seq<T>, meta: seq<T>, rest: seq<T>)
    requires |mark| > 0 && Find(meta + mark + rest, mark, 0) == Some(|meta|)
    ensures SplitN(meta + mark + rest, mark, 1) == [meta, rest]
  {
    var tail := meta + mark + rest;
    SplitNCut(tail, mark, 1, |meta|);
    assert tail[..|meta|] == meta;
    assert tail[|meta| + |mark|..] == rest;
    SplitNWhole(rest, mark, 0);
  }

  /** After a mark-free block that does not end in '-', the next mark is the one that follows it. */
  lemma {:induction false} MarkAfterMeta(meta: string, rest: string)
    requires forall k :: 0 <= k ==> !OccursAt(meta, FrontMatterMark, k)
    requires meta == [] || meta[|meta| - 1] != '-'
    ensures Find(meta + FrontMatterMark + rest, FrontMatterMark, 0) == Some(|meta|)
  {
    var t := meta + FrontMatterMark + rest;
    assert OccursAt(t, FrontMatterMark, |meta|);
    forall j | 0 <= j < |meta| ensures !OccursAt(t, FrontMatterMark, j) {
      if j + 3 <= |meta| {
        assert t[j..j + 3] == meta[j..j + 3];
        assert !OccursAt(meta, FrontMatterMark, j);
      } else {
        assert t[|meta| - 1] == meta[|meta| - 1];
        assert t[j..j + 3][|meta| - 1 - j] == t[|meta| - 1];
      }
    }
    FindIs(t, FrontMatterMark, |meta|);
  }

  /** Text without any mark is its own body, stripped. */
  lemma {:induction false} NoFrontMatterBody(content: string)
    requires Find(content, FrontMatterMark, 0).None?
    ensures Body(content) == Strip(content)
  {
    SplitNWhole(content, FrontMatterMark, 2);
  }
}

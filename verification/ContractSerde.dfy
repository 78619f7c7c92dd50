/** The persisted evaluation contract: its JSON value, and the decoder that reads it back. */
module ContractSerde {
  import opened Ids

  datatype Json =
    | JNull
    | JScalar(text: string)
    | JStr(value: string)
    | JArr(items: seq<Json>)
    | JObj(fields: map<string, Json>)

  type Fields = map<string, Json>

  /** What the host language supplies: `str(v)` of a JSON value, and `str(Path(t))`, the normal
      spelling of a path. */
  datatype Host = Host(str: Json -> string, path: string -> string)

  ghost predicate Sane(host: Host) {
    (forall s :: host.str(JStr(s)) == s) && forall t :: host.path(host.path(t)) == host.path(t)
  }

  // ----- the contract -----

  datatype StageName = LocalCi | Rubric | Standards | Architecture | Behavior

  datatype Importance = Low | Medium | High | Critical

  datatype Stage = Stage(name: StageName, oneLine: string, threshold: string, gradingTemplate: string, sourceText: string)

  /** `path` is the path's normal spelling. */
  datatype StandardsDoc = StandardsDoc(
    profile: string, category: string, name: string, path: string, repoRelative: string, importance: Importance,
    appliesTo: seq<string>, appliesToLanguages: seq<string>, appliesToDomains: seq<string>,
    body: string, sections: seq<string>)

  datatype Profile = Profile(name: string, root: string, docs: seq<StandardsDoc>)

  datatype StandardsStage = StandardsStage(
    oneLine: string, threshold: string, gradingTemplate: string, profiles: seq<Profile>, sourceText: string)

  datatype ArchDoc = ArchDoc(path: string, repoRelative: string, title: string, sections: seq<string>, body: string)

  datatype Corpus = Corpus(root: string, docs: seq<ArchDoc>)

  datatype ArchitectureStage = ArchitectureStage(
    oneLine: string, threshold: string, gradingTemplate: string, corpus: Corpus, sourceText: string)

  datatype Contract = Contract(
    taskId: string, localCi: Stage, rubric: Stage, standards: StandardsStage, architecture: ArchitectureStage, behavior: Stage)

  datatype DecodeError =
    | FileNotFound
    | MissingKey(key: string)
    | NotADict
    | UnknownStage(text: string)
    | UnknownImportance(text: string)

  // ----- to JSON -----

  function StageText(n: StageName): string {
    match n
    case LocalCi => "local_ci"
    case Rubric => "rubric"
    case Standards => "standards"
    case Architecture => "architecture"
    case Behavior => "behavior"
  }

  function ImportanceText(i: Importance): string {
    match i
    case Low => "low"
    case Medium => "medium"
    case High => "high"
    case Critical => "critical"
  }

  function Texts(ss: seq<string>): Json {
    JArr(seq(|ss|, i requires 0 <= i < |ss| => JStr(ss[i])))
  }

  function EncodeStage(s: Stage): Json {
    JObj(map[
      "name" := JStr(StageText(s.name)),
      "one_line" := JStr(s.oneLine),
      "threshold" := JStr(s.threshold),
      "grading_template" := JStr(s.gradingTemplate),
      "source_text" := JStr(s.sourceText)])
  }

  function EncodeStandardsDoc(d: StandardsDoc): Json {
    JObj(map[
      "profile" := JStr(d.profile),
      "category" := JStr(d.category),
      "name" := JStr(d.name),
      "path" := JStr(d.path),
      "repo_relative" := JStr(d.repoRelative),
      "importance" := JStr(ImportanceText(d.importance)),
      "applies_to" := Texts(d.appliesTo),
      "applies_to_languages" := Texts(d.appliesToLanguages),
      "applies_to_domains" := Texts(d.appliesToDomains),
      "body" := JStr(d.body),
      "sections" := Texts(d.sections)])
  }

  function EncodeProfile(p: Profile): Json {
    JObj(map[
      "name" := JStr(p.name),
      "root" := JStr(p.root),
      "docs" := JArr(seq(|p.docs|, i requires 0 <= i < |p.docs| => EncodeStandardsDoc(p.docs[i])))])
  }

  function EncodeProfiles(ps: seq<Profile>): Json {
    JArr(seq(|ps|, i requires 0 <= i < |ps| => EncodeProfile(ps[i])))
  }

  function EncodeArchDoc(d: ArchDoc): Json {
    JObj(map[
      "path" := JStr(d.path),
      "repo_relative" := JStr(d.repoRelative),
      "title" := JStr(d.title),
      "sections" := Texts(d.sections),
      "body" := JStr(d.body)])
  }

  function EncodeCorpus(c: Corpus): Json {
    JObj(map[
      "root" := JStr(c.root),
      "docs" := JArr(seq(|c.docs|, i requires 0 <= i < |c.docs| => EncodeArchDoc(c.docs[i])))])
  }

  function EncodeStandards(s: StandardsStage): Json {
    JObj(map[
      "name" := JStr("standards"),
      "one_line" := JStr(s.oneLine),
      "threshold" := JStr(s.threshold),
      "grading_template" := JStr(s.gradingTemplate),
      "profiles" := EncodeProfiles(s.profiles),
      "source_text" := JStr(s.sourceText)])
  }

  function EncodeArchitecture(s: ArchitectureStage): Json {
    JObj(map[
      "name" := JStr("architecture"),
      "one_line" := JStr(s.oneLine),
      "threshold" := JStr(s.threshold),
      "grading_template" := JStr(s.gradingTemplate),
      "corpus" := EncodeCorpus(s.corpus),
      "source_text" := JStr(s.sourceText)])
  }

  /** `to_jsonable` */
  function ToJsonable(c: Contract): Json {
    JObj(map[
      "task_id" := JStr(c.taskId),
      "local_ci" := EncodeStage(c.localCi),
      "rubric" := EncodeStage(c.rubric),
      "standards" := EncodeStandards(c.standards),
      "architecture" := EncodeArchitecture(c.architecture),
      "behavior" := EncodeStage(c.behavior)])
  }

  // ----- from JSON: single values -----

  /** `blob.get(key, default)` */
  function Get(f: Fields, key: string, default: Json): Json {
    if key in f then f[key] else default
  }

  /** `str(blob.get(key, ""))` */
  function Text(host: Host, f: Fields, key: string): string {
    host.str(Get(f, key, JStr("")))
  }

  /** `_get_str`: a null reads as the default, too. */
  function TextOrEmpty(host: Host, f: Fields, key: string): string {
    var v := Get(f, key, JNull);
    if v.JNull? then "" else host.str(v)
  }

  /** `_str_tuple_from_list` */
  function TextList(host: Host, j: Json): seq<string> {
    if j.JArr? then seq(|j.items|, i requires 0 <= i < |j.items| => host.str(j.items[i])) else []
  }

  function StageOfText(t: string): Result<StageName, DecodeError> {
    if t == "local_ci" then Ok(LocalCi)
    else if t == "rubric" then Ok(Rubric)
    else if t == "standards" then Ok(Standards)
    else if t == "architecture" then Ok(Architecture)
    else if t == "behavior" then Ok(Behavior)
    else Err(UnknownStage(t))
  }

  function ImportanceOfText(t: string): Result<Importance, DecodeError> {
    if t == "low" then Ok(Low)
    else if t == "medium" then Ok(Medium)
    else if t == "high" then Ok(High)
    else if t == "critical" then Ok(Critical)
    else Err(UnknownImportance(t))
  }

  // ----- what decoding means -----

  function StandardsDocOf(host: Host, f: Fields): Result<StandardsDoc, DecodeError> {
    var importance :- ImportanceOfText(host.str(Get(f, "importance", JStr("low"))));
    Ok(StandardsDoc(
         Text(host, f, "profile"), Text(host, f, "category"), Text(host, f, "name"), host.path(Text(host, f, "path")),
         Text(host, f, "repo_relative"), importance,
         TextList(host, Get(f, "applies_to", JNull)), TextList(host, Get(f, "applies_to_languages", JNull)),
         TextList(host, Get(f, "applies_to_domains", JNull)), Text(host, f, "body"),
         TextList(host, Get(f, "sections", JNull))))
  }

  /** Entries that are not objects are skipped; the first bad importance ends the decoding. */
  function StandardsDocsOf(host: Host, items: seq<Json>): Result<seq<StandardsDoc>, DecodeError> {
    if items == [] then Ok([])
    else
      var n := |items| - 1;
      var front :- StandardsDocsOf(host, items[..n]);
      if !items[n].JObj? then Ok(front)
      else
        var d :- StandardsDocOf(host, items[n].fields);
        Ok(front + [d])
  }

  /** A missing list or a value that is not one reads as empty. */
  function ItemsOf(j: Json): seq<Json> {
    if j.JArr? then j.items else []
  }

  function ProfileOf(host: Host, f: Fields): Result<Profile, DecodeError> {
    var docs :- StandardsDocsOf(host, ItemsOf(Get(f, "docs", JArr([]))));
    Ok(Profile(Text(host, f, "name"), host.path(Text(host, f, "root")), docs))
  }

  function ProfilesOf(host: Host, items: seq<Json>): Result<seq<Profile>, DecodeError> {
    if items == [] then Ok([])
    else
      var n := |items| - 1;
      var front :- ProfilesOf(host, items[..n]);
      if !items[n].JObj? then Ok(front)
      else
        var p :- ProfileOf(host, items[n].fields);
        Ok(front + [p])
  }

  function ArchDocOf(host: Host, f: Fields): ArchDoc {
    ArchDoc(host.path(Text(host, f, "path")), Text(host, f, "repo_relative"), Text(host, f, "title"),
            TextList(host, Get(f, "sections", JNull)), Text(host, f, "body"))
  }

  function ArchDocsOf(host: Host, items: seq<Json>): seq<ArchDoc> {
    if items == [] then []
    else
      var n := |items| - 1;
      ArchDocsOf(host, items[..n]) + if items[n].JObj? then [ArchDocOf(host, items[n].fields)] else []
  }

  function CorpusOf(host: Host, j: Json): Corpus {
    if !j.JObj? then Corpus(host.path(""), [])
    else Corpus(host.path(Text(host, j.fields, "root")), ArchDocsOf(host, ItemsOf(Get(j.fields, "docs", JArr([])))))
  }

  function StageOf(host: Host, j: Json): Result<Stage, DecodeError> {
    if !j.JObj? then Err(NotADict)
    else
      var name :- StageOfText(host.str(Get(j.fields, "name", JNull)));
      Ok(Stage(name, TextOrEmpty(host, j.fields, "one_line"), TextOrEmpty(host, j.fields, "threshold"),
               TextOrEmpty(host, j.fields, "grading_template"), TextOrEmpty(host, j.fields, "source_text")))
  }

  function StandardsOf(host: Host, j: Json): Result<StandardsStage, DecodeError> {
    if !j.JObj? then Err(NotADict)
    else
      var profiles :- ProfilesOf(host, ItemsOf(Get(j.fields, "profiles", JArr([]))));
      Ok(StandardsStage(TextOrEmpty(host, j.fields, "one_line"), TextOrEmpty(host, j.fields, "threshold"),
                        TextOrEmpty(host, j.fields, "grading_template"), profiles,
                        TextOrEmpty(host, j.fields, "source_text")))
  }

  function ArchitectureOf(host: Host, j: Json): Result<ArchitectureStage, DecodeError> {
    if !j.JObj? then Err(NotADict)
    else
      Ok(ArchitectureStage(TextOrEmpty(host, j.fields, "one_line"), TextOrEmpty(host, j.fields, "threshold"),
                           TextOrEmpty(host, j.fields, "grading_template"),
                           CorpusOf(host, Get(j.fields, "corpus", JObj(map[]))),
                           TextOrEmpty(host, j.fields, "source_text")))
  }

  /** `raw[key]` */
  function Field(raw: Json, key: string): Result<Json, DecodeError> {
    if !raw.JObj? then Err(NotADict)
    else if key !in raw.fields then Err(MissingKey(key))
    else Ok(raw.fields[key])
  }

  function ContractOf(host: Host, raw: Json): Result<Contract, DecodeError> {
    var taskId :- Field(raw, "task_id");
    var localCiJson :- Field(raw, "local_ci");
    var localCi :- StageOf(host, localCiJson);
    var rubricJson :- Field(raw, "rubric");
    var rubric :- StageOf(host, rubricJson);
    var standardsJson :- Field(raw, "standards");
    var standards :- StandardsOf(host, standardsJson);
    var architectureJson :- Field(raw, "architecture");
    var architecture :- ArchitectureOf(host, architectureJson);
    var behaviorJson :- Field(raw, "behavior");
    var behavior :- StageOf(host, behaviorJson);
    Ok(Contract(host.str(taskId), localCi, rubric, standards, architecture, behavior))
  }

  // ----- the decoding loops -----

  lemma {:induction false} BadDocEndsDecoding(host: Host, items: seq<Json>, k: nat)
    requires k <= |items| && StandardsDocsOf(host, items[..k]).Err?
    ensures StandardsDocsOf(host, items) == StandardsDocsOf(host, items[..k])
  {
    if k == |items| {
      assert items[..k] == items;
    } else {
      assert items[..|items| - 1][..k] == items[..k];
      BadDocEndsDecoding(host, items[..|items| - 1], k);
    }
  }

  method DecodeStandardsDocs(host: Host, items: seq<Json>) returns (r: Result<seq<StandardsDoc>, DecodeError>)
    ensures r == StandardsDocsOf(host, items)
  {
    var docs: seq<StandardsDoc> := [];
    for i := 0 to |items|
      invariant StandardsDocsOf(host, items[..i]) == Ok(docs)
    {
      assert items[..i + 1][..i] == items[..i];
      if items[i].JObj? {
        var d := StandardsDocOf(host, items[i].fields);
        if d.Err? {
          BadDocEndsDecoding(host, items, i + 1);
          return Err(d.error);
        }
        docs := docs + [d.value];
      }
    }
    assert items[..|items|] == items;
    return Ok(docs);
  }

  lemma {:induction false} BadProfileEndsDecoding(host: Host, items: seq<Json>, k: nat)
    requires k <= |items| && ProfilesOf(host, items[..k]).Err?
    ensures ProfilesOf(host, items) == ProfilesOf(host, items[..k])
  {
    if k == |items| {
      assert items[..k] == items;
    } else {
      assert items[..|items| - 1][..k] == items[..k];
      BadProfileEndsDecoding(host, items[..|items| - 1], k);
    }
  }

  method DecodeProfile(host: Host, f: Fields) returns (r: Result<Profile, DecodeError>)
    ensures r == ProfileOf(host, f)
  {
    var docs := DecodeStandardsDocs(host, ItemsOf(Get(f, "docs", JArr([]))));
    if docs.Err? { return Err(docs.error); }
    return Ok(Profile(Text(host, f, "name"), host.path(Text(host, f, "root")), docs.value));
  }

  method DecodeProfiles(host: Host, items: seq<Json>) returns (r: Result<seq<Profile>, DecodeError>)
    ensures r == ProfilesOf(host, items)
  {
    var profiles: seq<Profile> := [];
    for i := 0 to |items|
      invariant ProfilesOf(host, items[..i]) == Ok(profiles)
    {
      assert items[..i + 1][..i] == items[..i];
      if items[i].JObj? {
        var p := DecodeProfile(host, items[i].fields);
        if p.Err? {
          BadProfileEndsDecoding(host, items, i + 1);
          return Err(p.error);
        }
        profiles := profiles + [p.value];
      }
    }
    assert items[..|items|] == items;
    return Ok(profiles);
  }

  method DecodeArchDocs(host: Host, items: seq<Json>) returns (docs: seq<ArchDoc>)
    ensures docs == ArchDocsOf(host, items)
  {
    docs := [];
    for i := 0 to |items|
      invariant docs == ArchDocsOf(host, items[..i])
    {
      assert items[..i + 1][..i] == items[..i];
      if items[i].JObj? {
        docs := docs + [ArchDocOf(host, items[i].fields)];
      }
    }
    assert items[..|items|] == items;
  }

  method DecodeStandards(host: Host, j: Json) returns (r: Result<StandardsStage, DecodeError>)
    ensures r == StandardsOf(host, j)
  {
    if !j.JObj? { return Err(NotADict); }
    var f := j.fields;
    var profiles := DecodeProfiles(host, ItemsOf(Get(f, "profiles", JArr([]))));
    if profiles.Err? { return Err(profiles.error); }
    return Ok(StandardsStage(TextOrEmpty(host, f, "one_line"), TextOrEmpty(host, f, "threshold"),
                             TextOrEmpty(host, f, "grading_template"), profiles.value, TextOrEmpty(host, f, "source_text")));
  }

  method DecodeArchitecture(host: Host, j: Json) returns (r: Result<ArchitectureStage, DecodeError>)
    ensures r == ArchitectureOf(host, j)
  {
    if !j.JObj? { return Err(NotADict); }
    var f := j.fields;
    var blob := Get(f, "corpus", JObj(map[]));
    var corpus := Corpus(host.path(""), []);
    if blob.JObj? {
      var docs := DecodeArchDocs(host, ItemsOf(Get(blob.fields, "docs", JArr([]))));
      corpus := Corpus(host.path(Text(host, blob.fields, "root")), docs);
    }
    return Ok(ArchitectureStage(TextOrEmpty(host, f, "one_line"), TextOrEmpty(host, f, "threshold"),
                                TextOrEmpty(host, f, "grading_template"), corpus, TextOrEmpty(host, f, "source_text")));
  }

  /** `load`, given what the file holds, if it exists. */
  method Load(host: Host, file: Option<Json>) returns (r: Result<Contract, DecodeError>)
    ensures file.None? ==> r == Err(FileNotFound)
    ensures file.Some? ==> r == ContractOf(host, file.value)
  {
    if file.None? { return Err(FileNotFound); }
    var raw := file.value;
    var taskId :- Field(raw, "task_id");
    var localCiJson :- Field(raw, "local_ci");
    var localCi :- StageOf(host, localCiJson);
    var rubricJson :- Field(raw, "rubric");
    var rubric :- StageOf(host, rubricJson);
    var standardsJson :- Field(raw, "standards");
    var standards :- DecodeStandards(host, standardsJson);
    var architectureJson :- Field(raw, "architecture");
    var architecture :- DecodeArchitecture(host, architectureJson);
    var behaviorJson :- Field(raw, "behavior");
    var behavior :- StageOf(host, behaviorJson);
    return Ok(Contract(host.str(taskId), localCi, rubric, standards, architecture, behavior));
  }

  // ----- the round trip -----

  ghost predicate PathsNormal(host: Host, c: Contract) {
    ProfilesNormal(host, c.standards.profiles) && host.path(c.architecture.corpus.root) == c.architecture.corpus.root &&
    ArchDocsNormal(host, c.architecture.corpus.docs)
  }

  ghost predicate DocsNormal(host: Host, docs: seq<StandardsDoc>) {
    forall i | 0 <= i < |docs| :: host.path(docs[i].path) == docs[i].path
  }

  ghost predicate ArchDocsNormal(host: Host, docs: seq<ArchDoc>) {
    forall i | 0 <= i < |docs| :: host.path(docs[i].path) == docs[i].path
  }

  ghost predicate ProfilesNormal(host: Host, ps: seq<Profile>) {
    forall i | 0 <= i < |ps| :: host.path(ps[i].root) == ps[i].root && DocsNormal(host, ps[i].docs)
  }

  lemma TextsBack(host: Host, ss: seq<string>)
    requires Sane(host)
    ensures TextList(host, Texts(ss)) == ss
  {
  }

  lemma StageBack(host: Host, s: Stage)
    requires Sane(host)
    ensures StageOf(host, EncodeStage(s)) == Ok(s)
  {
    StageTextBack(s.name);
  }

  lemma StageTextBack(n: StageName)
    ensures StageOfText(StageText(n)) == Ok(n)
  {
  }

  lemma ImportanceTextBack(i: Importance)
    ensures ImportanceOfText(ImportanceText(i)) == Ok(i)
  {
  }

  ghost predicate HoldsDocTexts(f: Fields, d: StandardsDoc) {
    Get(f, "profile", JNull) == JStr(d.profile) && Get(f, "category", JNull) == JStr(d.category) &&
    Get(f, "name", JNull) == JStr(d.name) && Get(f, "path", JNull) == JStr(d.path) &&
    Get(f, "repo_relative", JNull) == JStr(d.repoRelative) && Get(f, "body", JNull) == JStr(d.body)
  }

  ghost predicate HoldsDocLists(f: Fields, d: StandardsDoc) {
    Get(f, "importance", JNull) == JStr(ImportanceText(d.importance)) &&
    Get(f, "applies_to", JNull) == Texts(d.appliesTo) &&
    Get(f, "applies_to_languages", JNull) == Texts(d.appliesToLanguages) &&
    Get(f, "applies_to_domains", JNull) == Texts(d.appliesToDomains) &&
    Get(f, "sections", JNull) == Texts(d.sections)
  }

  lemma EncodedDocTexts(d: StandardsDoc)
    ensures HoldsDocTexts(EncodeStandardsDoc(d).fields, d)
  {
  }

  lemma EncodedDocLists(d: StandardsDoc)
    ensures HoldsDocLists(EncodeStandardsDoc(d).fields, d)
  {
  }

  lemma PresentText(host: Host, f: Fields, key: string, t: string)
    requires Sane(host) && Get(f, key, JNull) == JStr(t)
    ensures Text(host, f, key) == t
  {
  }

  lemma HeldDocDecodes(host: Host, f: Fields, d: StandardsDoc)
    requires Sane(host) && host.path(d.path) == d.path && HoldsDocTexts(f, d) && HoldsDocLists(f, d)
    ensures StandardsDocOf(host, f) == Ok(d)
  {
    ImportanceTextBack(d.importance);
    TextsBack(host, d.appliesTo);
    TextsBack(host, d.appliesToLanguages);
    TextsBack(host, d.appliesToDomains);
    TextsBack(host, d.sections);
    PresentText(host, f, "profile", d.profile);
    PresentText(host, f, "category", d.category);
    PresentText(host, f, "name", d.name);
    PresentText(host, f, "path", d.path);
    PresentText(host, f, "repo_relative", d.repoRelative);
    PresentText(host, f, "importance", ImportanceText(d.importance));
    PresentText(host, f, "body", d.body);
  }

  lemma StandardsDocBack(host: Host, d: StandardsDoc)
    requires Sane(host) && host.path(d.path) == d.path
    ensures StandardsDocOf(host, EncodeStandardsDoc(d).fields) == Ok(d)
  {
    EncodedDocTexts(d);
    EncodedDocLists(d);
    HeldDocDecodes(host, EncodeStandardsDoc(d).fields, d);
  }

  /** The value is an object that decodes to the document. */
  ghost predicate ReadsAsDoc(host: Host, j: Json, d: StandardsDoc) {
    j.JObj? && StandardsDocOf(host, j.fields) == Ok(d)
  }

  lemma {:induction false} StandardsDocsBack(host: Host, docs: seq<StandardsDoc>, items: seq<Json>)
    requires |items| == |docs| && forall i | 0 <= i < |docs| :: ReadsAsDoc(host, items[i], docs[i])
    ensures StandardsDocsOf(host, items) == Ok(docs)
  {
    if docs != [] {
      var n := |docs| - 1;
      StandardsDocsBack(host, docs[..n], items[..n]);
      assert ReadsAsDoc(host, items[n], docs[n]);
      assert docs == docs[..n] + [docs[n]];
    }
  }

  lemma ProfileBack(host: Host, p: Profile)
    requires Sane(host) && host.path(p.root) == p.root && DocsNormal(host, p.docs)
    ensures ProfileOf(host, EncodeProfile(p).fields) == Ok(p)
  {
    var items := EncodeProfile(p).fields["docs"].items;
    forall i | 0 <= i < |p.docs| ensures ReadsAsDoc(host, items[i], p.docs[i]) { StandardsDocBack(host, p.docs[i]); }
    StandardsDocsBack(host, p.docs, items);
  }

  ghost predicate ReadsAsProfile(host: Host, j: Json, p: Profile) {
    j.JObj? && ProfileOf(host, j.fields) == Ok(p)
  }

  lemma {:induction false} ProfilesBack(host: Host, ps: seq<Profile>, items: seq<Json>)
    requires |items| == |ps| && forall i | 0 <= i < |ps| :: ReadsAsProfile(host, items[i], ps[i])
    ensures ProfilesOf(host, items) == Ok(ps)
  {
    if ps != [] {
      var n := |ps| - 1;
      ProfilesBack(host, ps[..n], items[..n]);
      assert ReadsAsProfile(host, items[n], ps[n]);
      assert ps == ps[..n] + [ps[n]];
    }
  }

  lemma EncodeProfilesBack(host: Host, ps: seq<Profile>)
    requires Sane(host) && ProfilesNormal(host, ps)
    ensures ProfilesOf(host, EncodeProfiles(ps).items) == Ok(ps)
  {
    forall i | 0 <= i < |ps| ensures ReadsAsProfile(host, EncodeProfiles(ps).items[i], ps[i]) {
      ProfileBack(host, ps[i]);
    }
    ProfilesBack(host, ps, EncodeProfiles(ps).items);
  }

  /** The texts every stage object carries. */
  ghost predicate HoldsStageTexts(f: Fields, oneLine: string, threshold: string, template: string, source: string) {
    Get(f, "one_line", JNull) == JStr(oneLine) && Get(f, "threshold", JNull) == JStr(threshold) &&
    Get(f, "grading_template", JNull) == JStr(template) && Get(f, "source_text", JNull) == JStr(source)
  }

  lemma EncodedStandardsHolds(s: StandardsStage)
    ensures var f := EncodeStandards(s).fields;
            HoldsStageTexts(f, s.oneLine, s.threshold, s.gradingTemplate, s.sourceText) &&
            Get(f, "profiles", JArr([])) == EncodeProfiles(s.profiles)
  {
  }

  lemma HeldStandardsDecodes(host: Host, f: Fields, s: StandardsStage)
    requires Sane(host) && HoldsStageTexts(f, s.oneLine, s.threshold, s.gradingTemplate, s.sourceText)
    requires Get(f, "profiles", JArr([])).JArr? && ProfilesOf(host, Get(f, "profiles", JArr([])).items) == Ok(s.profiles)
    ensures StandardsOf(host, JObj(f)) == Ok(s)
  {
  }

  lemma StandardsBack(host: Host, s: StandardsStage)
    requires Sane(host) && ProfilesNormal(host, s.profiles)
    ensures StandardsOf(host, EncodeStandards(s)) == Ok(s)
  {
    EncodedStandardsHolds(s);
    EncodeProfilesBack(host, s.profiles);
    HeldStandardsDecodes(host, EncodeStandards(s).fields, s);
  }

  lemma ArchDocBack(host: Host, d: ArchDoc)
    requires Sane(host) && host.path(d.path) == d.path
    ensures ArchDocOf(host, EncodeArchDoc(d).fields) == d
  {
    TextsBack(host, d.sections);
  }

  lemma {:induction false} ArchDocsBack(host: Host, docs: seq<ArchDoc>, items: seq<Json>)
    requires Sane(host) && ArchDocsNormal(host, docs)
    requires |items| == |docs| && forall i | 0 <= i < |docs| :: items[i] == EncodeArchDoc(docs[i])
    ensures ArchDocsOf(host, items) == docs
  {
    if docs != [] {
      var n := |docs| - 1;
      ArchDocsBack(host, docs[..n], items[..n]);
      ArchDocBack(host, docs[n]);
    }
  }

  lemma CorpusBack(host: Host, c: Corpus)
    requires Sane(host) && host.path(c.root) == c.root && ArchDocsNormal(host, c.docs)
    ensures CorpusOf(host, EncodeCorpus(c)) == c
  {
    ArchDocsBack(host, c.docs, EncodeCorpus(c).fields["docs"].items);
  }

  lemma EncodedArchitectureHolds(s: ArchitectureStage)
    ensures var f := EncodeArchitecture(s).fields;
            HoldsStageTexts(f, s.oneLine, s.threshold, s.gradingTemplate, s.sourceText) &&
            Get(f, "corpus", JObj(map[])) == EncodeCorpus(s.corpus)
  {
  }

  lemma HeldArchitectureDecodes(host: Host, f: Fields, s: ArchitectureStage)
    requires Sane(host) && HoldsStageTexts(f, s.oneLine, s.threshold, s.gradingTemplate, s.sourceText)
    requires CorpusOf(host, Get(f, "corpus", JObj(map[]))) == s.corpus
    ensures ArchitectureOf(host, JObj(f)) == Ok(s)
  {
  }

  lemma ArchitectureBack(host: Host, s: ArchitectureStage)
    requires Sane(host) && host.path(s.corpus.root) == s.corpus.root && ArchDocsNormal(host, s.corpus.docs)
    ensures ArchitectureOf(host, EncodeArchitecture(s)) == Ok(s)
  {
    EncodedArchitectureHolds(s);
    CorpusBack(host, s.corpus);
    HeldArchitectureDecodes(host, EncodeArchitecture(s).fields, s);
  }

  lemma StagesMakeTheContract(host: Host, raw: Json, c: Contract)
    requires Field(raw, "task_id").Ok? && host.str(Field(raw, "task_id").value) == c.taskId
    requires Field(raw, "local_ci").Ok? && StageOf(host, Field(raw, "local_ci").value) == Ok(c.localCi)
    requires Field(raw, "rubric").Ok? && StageOf(host, Field(raw, "rubric").value) == Ok(c.rubric)
    requires Field(raw, "standards").Ok? && StandardsOf(host, Field(raw, "standards").value) == Ok(c.standards)
    requires Field(raw, "architecture").Ok? && ArchitectureOf(host, Field(raw, "architecture").value) == Ok(c.architecture)
    requires Field(raw, "behavior").Ok? && StageOf(host, Field(raw, "behavior").value) == Ok(c.behavior)
    ensures ContractOf(host, raw) == Ok(c)
  {
  }

  lemma EncodedFields(c: Contract)
    ensures var raw := ToJsonable(c);
            Field(raw, "task_id") == Ok(JStr(c.taskId)) && Field(raw, "local_ci") == Ok(EncodeStage(c.localCi)) &&
            Field(raw, "rubric") == Ok(EncodeStage(c.rubric)) && Field(raw, "standards") == Ok(EncodeStandards(c.standards)) &&
            Field(raw, "architecture") == Ok(EncodeArchitecture(c.architecture)) &&
            Field(raw, "behavior") == Ok(EncodeStage(c.behavior))
  {
  }

  /** Decoding a contract's JSON value gives the contract back, however many profiles, documents,
      sections and list entries it holds. */
  lemma RoundTrip(host: Host, c: Contract)
    requires Sane(host) && PathsNormal(host, c)
    ensures ContractOf(host, ToJsonable(c)) == Ok(c)
  {
    EncodedFields(c);
    StageBack(host, c.localCi);
    StageBack(host, c.rubric);
    StandardsBack(host, c.standards);
    ArchitectureBack(host, c.architecture);
    StageBack(host, c.behavior);
    StagesMakeTheContract(host, ToJsonable(c), c);
  }

  // ----- what missing, null and ill-typed values read as -----

  /** An object without any key reads as the defaults. */
  lemma EmptyReadsAsDefaults(host: Host)
    requires Sane(host)
    ensures StandardsDocOf(host, map[]) ==
            Ok(StandardsDoc("", "", "", host.path(""), "", Low, [], [], [], "", []))
    ensures ProfileOf(host, map[]) == Ok(Profile("", host.path(""), []))
    ensures ArchDocOf(host, map[]) == ArchDoc(host.path(""), "", "", [], "")
    ensures CorpusOf(host, JObj(map[])) == Corpus(host.path(""), [])
    ensures StandardsOf(host, JObj(map[])) == Ok(StandardsStage("", "", "", [], ""))
    ensures ArchitectureOf(host, JObj(map[])) == Ok(ArchitectureStage("", "", "", Corpus(host.path(""), []), ""))
  {
  }

  /** A null reads as "" in a stage's texts; everywhere else it is turned into text like any other
      value that is there. Where a list is expected any other value reads as an empty one. */
  lemma PresentReadsAsText(host: Host, f: Fields, key: string)
    requires key in f
    ensures TextOrEmpty(host, f, key) == if f[key] == JNull then "" else host.str(f[key])
    ensures Text(host, f, key) == host.str(f[key])
    ensures !f[key].JArr? ==> TextList(host, f[key]) == [] && ItemsOf(f[key]) == []
  {
  }

  // ----- what the decoder accepts -----

  ghost predicate KnownImportance(host: Host, j: Json) {
    j.JObj? ==> ImportanceOfText(host.str(Get(j.fields, "importance", JStr("low")))).Ok?
  }

  ghost predicate KnownImportances(host: Host, j: Json) {
    j.JObj? ==> var docs := ItemsOf(Get(j.fields, "docs", JArr([])));
                forall i | 0 <= i < |docs| :: KnownImportance(host, docs[i])
  }

  ghost predicate KnownStage(host: Host, j: Json) {
    j.JObj? && StageOfText(host.str(Get(j.fields, "name", JNull))).Ok?
  }

  lemma DocDecodesIff(host: Host, f: Fields)
    ensures StandardsDocOf(host, f).Ok? <==> KnownImportance(host, JObj(f))
    ensures StandardsDocOf(host, f).Ok? && Sane(host) ==>
              host.path(StandardsDocOf(host, f).value.path) == StandardsDocOf(host, f).value.path
  {
  }

  lemma {:induction false} DocsDecodeIff(host: Host, items: seq<Json>)
    ensures StandardsDocsOf(host, items).Ok? <==> forall i | 0 <= i < |items| :: KnownImportance(host, items[i])
    ensures StandardsDocsOf(host, items).Ok? && Sane(host) ==> DocsNormal(host, StandardsDocsOf(host, items).value)
  {
    if items != [] {
      var n := |items| - 1;
      DocsDecodeIff(host, items[..n]);
      if items[n].JObj? { DocDecodesIff(host, items[n].fields); }
      assert items == items[..n] + [items[n]];
    }
  }

  lemma {:induction false} ProfilesDecodeIff(host: Host, items: seq<Json>)
    ensures ProfilesOf(host, items).Ok? <==> forall i | 0 <= i < |items| :: KnownImportances(host, items[i])
    ensures ProfilesOf(host, items).Ok? && Sane(host) ==> ProfilesNormal(host, ProfilesOf(host, items).value)
  {
    if items != [] {
      var n := |items| - 1;
      ProfilesDecodeIff(host, items[..n]);
      assert items == items[..n] + [items[n]];
      if items[n].JObj? { DocsDecodeIff(host, ItemsOf(Get(items[n].fields, "docs", JArr([])))); }
    }
  }

  lemma {:induction false} ArchDocsAreNormal(host: Host, items: seq<Json>)
    requires Sane(host)
    ensures ArchDocsNormal(host, ArchDocsOf(host, items))
  {
    if items != [] { ArchDocsAreNormal(host, items[..|items| - 1]); }
  }

  ghost predicate Decodable(host: Host, raw: Json) {
    raw.JObj? && "task_id" in raw.fields &&
    "local_ci" in raw.fields && KnownStage(host, raw.fields["local_ci"]) &&
    "rubric" in raw.fields && KnownStage(host, raw.fields["rubric"]) &&
    "standards" in raw.fields && StandardsDecodable(host, raw.fields["standards"]) &&
    "architecture" in raw.fields && raw.fields["architecture"].JObj? &&
    "behavior" in raw.fields && KnownStage(host, raw.fields["behavior"])
  }

  ghost predicate StandardsDecodable(host: Host, j: Json) {
    j.JObj? && var profiles := ItemsOf(Get(j.fields, "profiles", JArr([])));
               forall i | 0 <= i < |profiles| :: KnownImportances(host, profiles[i])
  }

  /** A JSON value decodes exactly when the six keys are there, the five stages are objects, the
      generic ones carry a known name, and no standards document has an unknown importance. */
  lemma DecodesIff(host: Host, raw: Json)
    ensures ContractOf(host, raw).Ok? <==> Decodable(host, raw)
  {
    if raw.JObj? && "standards" in raw.fields && raw.fields["standards"].JObj? {
      ProfilesDecodeIff(host, ItemsOf(Get(raw.fields["standards"].fields, "profiles", JArr([]))));
    }
  }

  /** Whatever was decoded is a fixed point: persisting it and loading it again changes nothing. */
  lemma ReloadIsStable(host: Host, raw: Json)
    requires Sane(host) && ContractOf(host, raw).Ok?
    ensures ContractOf(host, ToJsonable(ContractOf(host, raw).value)) == ContractOf(host, raw)
  {
    var c := ContractOf(host, raw).value;
    ProfilesDecodeIff(host, ItemsOf(Get(raw.fields["standards"].fields, "profiles", JArr([]))));
    var corpus := Get(raw.fields["architecture"].fields, "corpus", JObj(map[]));
    if corpus.JObj? { ArchDocsAreNormal(host, ItemsOf(Get(corpus.fields, "docs", JArr([])))); }
    RoundTrip(host, c);
  }
}

/** File intake (script.js, `handleFiles` and `processFile`): the `.json`
    name gate, the required-key check on the parsed document, and how the
    session's current document and results panel change on an upload. */
module Intake {
  import opened Wrappers

  /** A value produced by `JSON.parse`. Objects are maps: a key repeated in
      the text keeps its last value there too. */
  datatype Json =
    | JNull
    | JBool(b: bool)
    | JNumber(n: real)
    | JString(s: string)
    | JArray(items: seq<Json>)
    | JObject(fields: map<string, Json>)

  /** `doc.key` on a non-null value; `None` is JavaScript's `undefined`.
      Only objects parsed from JSON carry the keys read here. */
  function Read(doc: Json, key: string): (v: Option<Json>)
    ensures v.Some? <==> doc.JObject? && key in doc.fields
    ensures v.Some? ==> v.value == doc.fields[key]
  {
    match doc
    case JObject(fields) => if key in fields then Some(fields[key]) else None
    case _ => None
  }

  /** JavaScript truthiness of a read value: `undefined`, `null`, `false`,
      `0` and `""` are falsy, every array and object is truthy. */
  predicate Truthy(v: Option<Json>)
    ensures Truthy(v) ==> v.Some? && v.value != JNull
    ensures v.Some? && (v.value.JArray? || v.value.JObject?) ==> Truthy(v)
  {
    match v
    case None => false
    case Some(JNull) => false
    case Some(JBool(b)) => b
    case Some(JNumber(n)) => n != 0.0
    case Some(JString(s)) => s != ""
    case Some(JArray(_)) => true
    case Some(JObject(_)) => true
  }

  const PointsKey: string := "points"
  const ExplainedKey: string := "explained_variance_ratio_all"
  const CumulativeKey: string := "cumulative_variance_ratio_all"
  const RequiredKeys: seq<string> := [PointsKey, ExplainedKey, CumulativeKey]

  const WrongTypeMessage: string := "Please upload a valid '.json' file."

  datatype IntakeError =
    | NotJson        // `JSON.parse` threw
    | NullDocument   // the text was `null`: reading `.points` throws a TypeError
    | MissingKeys    // the check threw its "Required keys ... are missing" error

  /** The required-key check: every required key is present with a truthy
      value; nothing else about the document is looked at. */
  function Validate(doc: Json): (r: Result<Json, IntakeError>)
    ensures r.Success? <==>
      doc.JObject? && forall k :: k in RequiredKeys ==> k in doc.fields && Truthy(Some(doc.fields[k]))
    ensures r.Success? ==> r.value == doc
    ensures r.Failure? ==> r.error == (if doc.JNull? then NullDocument else MissingKeys)
  {
    if doc.JNull? then Failure(NullDocument)
    else if !Truthy(Read(doc, PointsKey)) || !Truthy(Read(doc, ExplainedKey)) || !Truthy(Read(doc, CumulativeKey)) then
      Failure(MissingKeys)
    else Success(doc)
  }

  /** Keys other than the required ones never change the verdict. */
  lemma ExtraKeysIgnored(m: map<string, Json>, m': map<string, Json>)
    requires forall k :: k in RequiredKeys ==> (k in m <==> k in m')
    requires forall k :: k in RequiredKeys && k in m ==> Truthy(Some(m[k])) == Truthy(Some(m'[k]))
    ensures Validate(JObject(m)).Success? <==> Validate(JObject(m')).Success?
  {
    assert PointsKey in RequiredKeys && ExplainedKey in RequiredKeys && CumulativeKey in RequiredKeys;
  }

  /** An empty array passes; a missing key, `null`, `0`, `false` and `""`
      each fail. */
  lemma TruthinessCases(m: map<string, Json>)
    requires ExplainedKey in m && Truthy(Some(m[ExplainedKey]))
    requires CumulativeKey in m && Truthy(Some(m[CumulativeKey]))
    ensures Validate(JObject(m[PointsKey := JArray([])])).Success?
    ensures Validate(JObject(m - {PointsKey})) == Failure(MissingKeys)
    ensures forall v :: v in [JNull, JNumber(0.0), JBool(false), JString("")] ==>
      Validate(JObject(m[PointsKey := v])) == Failure(MissingKeys)
  {
  }

  /** A selected file; only its name is looked at before reading. */
  datatype FileEntry = FileEntry(name: string)

  /** What the name gate does with one drop or file-picker change. */
  datatype Gate = NoFile | Rejected(message: string) | Accepted(file: FileEntry)

  predicate EndsWith(s: string, suffix: string)
  {
    |suffix| <= |s| && s[|s| - |suffix|..] == suffix
  }

  /** The gate: an empty selection does nothing, otherwise only the first
      file counts and its name must end with ".json", case-sensitively. */
  function HandleFiles(files: seq<FileEntry>): (g: Gate)
    ensures g.NoFile? <==> |files| == 0
    ensures g.Accepted? ==>
      && g.file == files[0] && |files[0].name| >= 5
      && files[0].name == files[0].name[..|files[0].name| - 5] + ".json"
    ensures forall stem :: |files| > 0 && files[0].name == stem + ".json" ==> g == Accepted(files[0])
    ensures g.Rejected? ==> g.message == WrongTypeMessage
  {
    if |files| == 0 then NoFile
    else if !EndsWith(files[0].name, ".json") then Rejected(WrongTypeMessage)
    else Accepted(files[0])
  }

  /** Files after the first never change the outcome. */
  lemma OnlyFirstFileCounts(files: seq<FileEntry>, files': seq<FileEntry>)
    requires |files| > 0 && |files'| > 0 && files[0] == files'[0]
    ensures HandleFiles(files) == HandleFiles(files')
  {
  }

  /** The suffix test is exact and case-sensitive. */
  lemma SuffixCases()
    ensures HandleFiles([FileEntry("pca.json"), FileEntry("x.txt")]) == Accepted(FileEntry("pca.json"))
    ensures HandleFiles([FileEntry(".json")]) == Accepted(FileEntry(".json"))
    ensures HandleFiles([FileEntry("pca.JSON")]) == Rejected(WrongTypeMessage)
    ensures HandleFiles([FileEntry("pca.json.txt")]) == Rejected(WrongTypeMessage)
    ensures HandleFiles([FileEntry("json")]) == Rejected(WrongTypeMessage)
  {
    assert "pca.json"[3..] == ".json";
    assert "pca.JSON"[3..] != ".json" by {
      assert "pca.JSON"[3..][1] == 'J';
    }
    assert "pca.json.txt"[7..] != ".json" by {
      assert "pca.json.txt"[7..][0] == 'n';
    }
  }

  /** The session: the name shown in the file list, the global current
      document, and whether the results panel is displayed. */
  datatype Session = Session(fileName: Option<string>, data: Option<Json>, resultsShown: bool)

  datatype UploadOutcome =
    | Ignored                      // no file in the selection
    | WrongType(message: string)   // alerted, nothing else happens
    | Displayed                    // the document passed and results are shown
    | Alerted(error: IntakeError)  // reading, parsing or the check failed

  /** Processing an accepted file whose text `JSON.parse` turned into
      `parsed` (`None` when it threw). The results panel is hidden first and
      shown again only on success; the parsed document replaces the current
      one before it is checked, so a parsed but failing document is kept. */
  function ProcessFile(session: Session, parsed: Option<Json>): (r: (Session, UploadOutcome))
    ensures r.0.fileName == session.fileName
    ensures r.0.resultsShown <==> parsed.Some? && Validate(parsed.value).Success?
    ensures r.1 == Displayed <==> r.0.resultsShown
    ensures r.1 != Displayed ==>
      r.1 == Alerted(if parsed.None? then NotJson else Validate(parsed.value).error)
    ensures parsed.None? ==> r.0.data == session.data
    ensures parsed.Some? ==> r.0.data == parsed
  {
    match parsed
    case None => (session.(resultsShown := false), Alerted(NotJson))
    case Some(doc) =>
      match Validate(doc)
      case Success(_) => (session.(data := Some(doc), resultsShown := true), Displayed)
      case Failure(e) => (session.(data := Some(doc), resultsShown := false), Alerted(e))
  }

  /** One upload event: the gate, then processing of the first file, whose
      parsed text is `parsed`. A rejected or empty selection leaves the
      session exactly as it was and never reaches the check. */
  function Upload(session: Session, files: seq<FileEntry>, parsed: Option<Json>): (r: (Session, UploadOutcome))
    ensures !HandleFiles(files).Accepted? ==> r.0 == session
    ensures |files| == 0 ==> r.1 == Ignored
    ensures HandleFiles(files).Rejected? ==> r.1 == WrongType(WrongTypeMessage)
    ensures HandleFiles(files).Accepted? ==>
      r.0.fileName == Some(files[0].name) && (r.1 == Displayed <==> parsed.Some? && Validate(parsed.value).Success?)
    ensures r.1 == Displayed ==> r.0 == Session(Some(files[0].name), parsed, true)
    ensures HandleFiles(files).Accepted? ==> r == ProcessFile(session.(fileName := Some(files[0].name)), parsed)
    ensures HandleFiles(files).Accepted? && r.1 != Displayed ==>
      && r.1 == Alerted(if parsed.None? then NotJson else Validate(parsed.value).error)
      && !r.0.resultsShown
      && r.0.data == (if parsed.None? then session.data else parsed)
  {
    match HandleFiles(files)
    case NoFile => (session, Ignored)
    case Rejected(message) => (session, WrongType(message))
    case Accepted(file) => ProcessFile(session.(fileName := Some(file.name)), parsed)
  }
}

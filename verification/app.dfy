/** One upload event end to end (script.js, `handleFiles`, `processFile`
    and `displayResults`): the gate, the check, the statistics and the
    first render pass over the sections that are active and shown. */
module App {
  import opened Wrappers
  import opened Intake
  import opened PcaData
  import opened Sections
  import opened Charts

  /** What a successful load puts on screen. */
  datatype View = View(stats: Stats, charts: seq<(SectionId, Chart)>)

  /** The view a displayed document produces. A document of another shape
      still goes through the intake and the session, but the stats and
      charts are not modelled for it, so it has no view (see `AsDataset`). */
  function ViewOf(board: Board, doc: Json): Option<View>
  {
    match AsDataset(doc)
    case Some(d) => Some(View(DeriveStats(d), InitialRender(board, d)))
    case None => None
  }

  /** A section the first render pass must draw: active and shown. */
  predicate Drawn(board: Board, id: SectionId)
  {
    board.Get(id).active && !board.Get(id).hidden
  }

  /** Every section that is active and shown appears in the first render
      pass. */
  lemma DrawnSectionsRendered(board: Board, d: Dataset)
    ensures forall id :: Drawn(board, id) ==>
      exists k :: 0 <= k < |InitialRender(board, d)| && InitialRender(board, d)[k].0 == id
  {
    forall id | Drawn(board, id)
      ensures exists k :: 0 <= k < |InitialRender(board, d)| && InitialRender(board, d)[k].0 == id
    {
      InitialRenderSections(board, d, id);
    }
  }

  /** An upload: the new session, the outcome, and the view drawn when
      the outcome is `Displayed` (`None` otherwise: nothing is redrawn). */
  function Load(session: Session, board: Board, files: seq<FileEntry>, parsed: Option<Json>): (r: (Session, UploadOutcome, Option<View>))
    ensures (r.0, r.1) == Upload(session, files, parsed)
    ensures r.1 == Displayed <==> HandleFiles(files).Accepted? && parsed.Some? && Validate(parsed.value).Success?
    ensures r.2.Some? ==> r.1 == Displayed && r.0.data == parsed
    ensures r.1 == Displayed && parsed.Some? && AsDataset(parsed.value).Some? ==>
      r.2 == Some(View(DeriveStats(AsDataset(parsed.value).value), InitialRender(board, AsDataset(parsed.value).value)))
    ensures r.1 == Displayed && parsed.Some? && AsDataset(parsed.value).Some? ==>
      forall id :: Drawn(board, id) ==> exists k :: 0 <= k < |r.2.value.charts| && r.2.value.charts[k].0 == id
  {
    var (session', outcome) := Upload(session, files, parsed);
    if outcome != Displayed then (session', outcome, None)
    else
      match AsDataset(parsed.value)
      case Some(d) =>
        DrawnSectionsRendered(board, d);
        (session', outcome, ViewOf(board, parsed.value))
      case None => (session', outcome, ViewOf(board, parsed.value))
  }

  /** A new load replaces everything on screen: what it draws does not
      depend on the document that was loaded before. */
  lemma LoadForgetsPreviousDocument(s1: Session, s2: Session, board: Board, files: seq<FileEntry>, parsed: Option<Json>)
    ensures Load(s1, board, files, parsed).1 == Load(s2, board, files, parsed).1
    ensures Load(s1, board, files, parsed).2 == Load(s2, board, files, parsed).2
    ensures Load(s1, board, files, parsed).1 == Displayed ==>
      Load(s1, board, files, parsed).0 == Load(s2, board, files, parsed).0
  {
  }

  /** A failed upload redraws nothing and leaves the results hidden. */
  lemma FailedLoadHidesResults(session: Session, board: Board, files: seq<FileEntry>, parsed: Option<Json>)
    requires HandleFiles(files).Accepted?
    requires parsed.None? || Validate(parsed.value).Failure?
    ensures Load(session, board, files, parsed).2.None?
    ensures !Load(session, board, files, parsed).0.resultsShown
  {
  }
}

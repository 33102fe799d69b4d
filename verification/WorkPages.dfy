/**
 * The service side of `ptah_get_work_detail`: one work item and its attempts, cut into bounded
 * pages. A page of a work-item section names the item's revision; a page of an attempt section
 * also carries a fence, a digest of the content it was cut from.
 */
module WorkPages {

  import opened Wrappers

  const MAX_WORK_DETAIL_LIMIT: nat := 64

  const FENCE_LENGTH: nat := 64

  // ------------------------------------------------------------------ records

  /** An element of a collection on the wire. `Record` is any JSON value the client never opens. */
  datatype Elem = Record(json: string) | Attempt(summary: AttemptSummary)

  datatype ResultMeta = ResultMeta(
    summary: string,
    completedAt: string,
    failure: Option<string>,
    cancellationReason: Option<string>,
    verification: Option<string>,
    candidateVerification: Option<string>)

  /** Result metadata on the wire, where any field may be null. */
  datatype MetaJson = MetaJson(
    summary: Option<string>,
    completedAt: Option<string>,
    failure: Option<string>,
    cancellationReason: Option<string>,
    verification: Option<string>,
    candidateVerification: Option<string>)

  const NULL_META := MetaJson(None, None, None, None, None, None)

  datatype WorkResult = WorkResult(meta: ResultMeta, evidence: seq<Elem>, artifacts: seq<Elem>)

  /** `identity` stands for the remaining scalar columns, which travel together in the summary. */
  datatype WorkItem = WorkItem(
    workId: string,
    revision: nat,
    identity: string,
    objective: string,
    progress: Option<string>,
    policy: string,
    dependencies: seq<Elem>,
    result: Option<WorkResult>)

  /** `scalars` stands for the columns of an attempt other than its ids and result. */
  datatype AttemptView = AttemptView(
    attemptId: string,
    workId: string,
    scalars: string,
    result: Option<WorkResult>)

  datatype ResultCounts = ResultCounts(meta: ResultMeta, evidenceCount: nat, artifactCount: nat)

  /** An attempt without its collections. The optional fields may be missing from a foreign page. */
  datatype AttemptSummary = AttemptSummary(
    attemptId: Option<string>,
    workId: string,
    scalars: string,
    result: Option<ResultCounts>,
    fence: Option<string>)

  datatype Section =
    | Summary | Objective | Progress | Policy | Dependencies | Outcome
    | Attempts | AttemptDetail | AttemptEvidence | AttemptArtifacts

  datatype Body =
    | SummaryBody(workId: string, identity: string, revision: nat)
    | ObjectiveBody(objective: string)
    | ProgressBody(progress: Option<string>)
    | PolicyBody(policy: string)
    | OutcomeBody(meta: MetaJson, evidence: seq<Elem>, artifacts: seq<Elem>)
    | AttemptBody(attempt: AttemptSummary)
    | ListBody(field: Section, items: seq<Elem>)

  datatype Page = Page(
    workId: string,
    revision: nat,
    section: Section,
    offset: nat,
    complete: bool,
    nextOffset: Option<nat>,
    body: Body,
    attemptId: Option<string>,
    fence: Option<string>)

  datatype Request = Request(
    workId: string,
    section: Section,
    offset: nat,
    limit: nat,
    attemptId: Option<string>,
    fence: Option<string>)

  /** The two digests and the transport budget, which depend on encodings not modelled here. */
  datatype Service = Service(
    attemptDigest: AttemptView -> string,
    linesDigest: string -> string,
    fits: Page -> bool)

  // ------------------------------------------------------------------- fences

  predicate IsHex(c: char) {
    '0' <= c <= '9' || 'a' <= c <= 'f'
  }

  predicate IsFence(s: string) {
    |s| == FENCE_LENGTH && forall i :: 0 <= i < |s| ==> IsHex(s[i])
  }

  /** Both digests render as fences. */
  ghost predicate Rendered(v: Service) {
    && (forall a :: IsFence(v.attemptDigest(a)))
    && (forall s :: IsFence(v.linesDigest(s)))
  }

  /** No attempt of one list shares its digest with a different attempt of the other. */
  ghost predicate Distinct(v: Service, xs: seq<AttemptView>, ys: seq<AttemptView>) {
    forall a, b | a in xs && b in ys :: v.attemptDigest(a) == v.attemptDigest(b) ==> a == b
  }

  function Line(v: Service, a: AttemptView): string {
    a.attemptId + "\t" + v.attemptDigest(a) + "\n"
  }

  function Lines(v: Service, attempts: seq<AttemptView>): string {
    if attempts == [] then "" else Line(v, attempts[0]) + Lines(v, attempts[1..])
  }

  function ListFence(v: Service, attempts: seq<AttemptView>): string {
    v.linesDigest(Lines(v, attempts))
  }

  /** Attempt ids are generated ids; none contains a line break. */
  predicate PlainIds(attempts: seq<AttemptView>) {
    forall i :: 0 <= i < |attempts| ==> '\n' !in attempts[i].attemptId
  }

  /** A line ends at its first line break, and its digest has a fixed width. */
  lemma LineIsDelimited(v: Service, a: AttemptView, s: string, b: AttemptView, t: string)
    requires Rendered(v) && '\n' !in a.attemptId && '\n' !in b.attemptId
    requires Line(v, a) + s == Line(v, b) + t
    ensures v.attemptDigest(a) == v.attemptDigest(b) && s == t
  {
    var la, lb := Line(v, a), Line(v, b);
    var fa, fb := v.attemptDigest(a), v.attemptDigest(b);
    var whole := la + s;
    assert la == a.attemptId + "\t" + fa + "\n" && lb == b.attemptId + "\t" + fb + "\n";
    assert whole[|la| - 1] == '\n' && whole[|lb| - 1] == '\n' by {
      assert la[|la| - 1] == '\n' && lb[|lb| - 1] == '\n';
      assert whole == lb + t;
    }
    NoEarlyBreak(v, a);
    NoEarlyBreak(v, b);
    assert forall i :: 0 <= i < |la| ==> la[i] == whole[i];
    assert forall i :: 0 <= i < |lb| ==> lb[i] == whole[i];
    assert |la| == |lb|;
    assert la == whole[..|la|] == lb && s == whole[|la|..] == t;
    var n := |a.attemptId| + 1;
    assert fa == la[n..n + FENCE_LENGTH] && fb == lb[n..n + FENCE_LENGTH];
  }

  lemma NoEarlyBreak(v: Service, a: AttemptView)
    requires Rendered(v) && '\n' !in a.attemptId
    ensures forall i :: 0 <= i < |Line(v, a)| - 1 ==> Line(v, a)[i] != '\n'
  {
  }

  lemma {:induction false} LinesAreInjective(v: Service, xs: seq<AttemptView>, ys: seq<AttemptView>)
    requires Rendered(v) && Distinct(v, xs, ys) && PlainIds(xs) && PlainIds(ys)
    requires Lines(v, xs) == Lines(v, ys)
    ensures xs == ys
    decreases |xs|
  {
    if xs != [] && ys != [] {
      LineIsDelimited(v, xs[0], Lines(v, xs[1..]), ys[0], Lines(v, ys[1..]));
      LinesAreInjective(v, xs[1..], ys[1..]);
      assert xs == [xs[0]] + xs[1..] && ys == [ys[0]] + ys[1..];
    }
  }

  /** Short of a digest collision, a list fence determines the whole list, contents and order. */
  lemma ListFenceDetermines(v: Service, xs: seq<AttemptView>, ys: seq<AttemptView>)
    requires Rendered(v) && Distinct(v, xs, ys) && PlainIds(xs) && PlainIds(ys)
    requires v.linesDigest(Lines(v, xs)) == v.linesDigest(Lines(v, ys)) ==> Lines(v, xs) == Lines(v, ys)
    ensures ListFence(v, xs) == ListFence(v, ys) <==> xs == ys
  {
    if ListFence(v, xs) == ListFence(v, ys) {
      LinesAreInjective(v, xs, ys);
    }
  }

  predicate AcceptFence(current: string, requested: Option<string>, offset: nat) {
    if requested.Some? then requested.value == current else offset == 0
  }

  // -------------------------------------------------------------- projections

  function SummaryOf(v: Service, a: AttemptView): AttemptSummary {
    var counts := if a.result.None? then None
                  else Some(ResultCounts(a.result.value.meta, |a.result.value.evidence|, |a.result.value.artifacts|));
    AttemptSummary(Some(a.attemptId), a.workId, a.scalars, counts, Some(v.attemptDigest(a)))
  }

  function Summaries(v: Service, attempts: seq<AttemptView>): (r: seq<Elem>)
    ensures |r| == |attempts|
    ensures forall i :: 0 <= i < |r| ==> r[i] == Attempt(SummaryOf(v, attempts[i]))
  {
    seq(|attempts|, i requires 0 <= i < |attempts| => Attempt(SummaryOf(v, attempts[i])))
  }

  function EvidenceOf(result: Option<WorkResult>): seq<Elem> {
    if result.None? then [] else result.value.evidence
  }

  function ArtifactsOf(result: Option<WorkResult>): seq<Elem> {
    if result.None? then [] else result.value.artifacts
  }

  function MetaOf(result: Option<WorkResult>): MetaJson {
    if result.None? then NULL_META
    else
      var m := result.value.meta;
      MetaJson(Some(m.summary), Some(m.completedAt), m.failure, m.cancellationReason, m.verification,
               m.candidateVerification)
  }

  // ------------------------------------------------------------ budgeted pages

  /** What a budgeted page is cut from: one fenced collection, or the two collections of the result. */
  datatype Source =
    | Fenced(item: WorkItem, section: Section, all: seq<Elem>, attemptId: Option<string>, fence: string)
    | Results(item: WorkItem)

  function Total(src: Source): nat {
    match src
    case Fenced(_, _, all, _, _) => |all|
    case Results(item) => |EvidenceOf(item.result)| + |ArtifactsOf(item.result)|
  }

  function Ends(total: nat, end: nat): Option<nat> {
    if end == total then None else Some(end)
  }

  /** The page holding positions `offset` to `end`. A result counts evidence first, then artifacts. */
  function PageOf(src: Source, offset: nat, end: nat): Page
    requires offset <= end <= Total(src)
  {
    var item, total := src.item, Total(src);
    match src
    case Fenced(_, section, all, attemptId, fence) =>
      Page(item.workId, item.revision, section, offset, end == total, Ends(total, end),
           ListBody(section, all[offset..end]), attemptId, Some(fence))
    case Results(_) =>
      var evidence, artifacts := EvidenceOf(item.result), ArtifactsOf(item.result);
      Page(item.workId, item.revision, Outcome, offset, end == total, Ends(total, end),
           OutcomeBody(MetaOf(item.result), Span(evidence, offset, end),
                       Span(artifacts, offset - |evidence|, end - |evidence|)),
           None, None)
  }

  /** The part of `s` between two positions, either of which may lie outside it. */
  function Span(s: seq<Elem>, lo: int, hi: int): seq<Elem>
    requires lo <= hi
  {
    s[Clamp(lo, |s|)..Clamp(hi, |s|)]
  }

  function Clamp(k: int, n: nat): (r: nat)
    ensures r <= n && (0 <= k <= n ==> r == k) && (k < 0 ==> r == 0) && (k > n ==> r == n)
  {
    if k < 0 then 0 else if k > n then n else k
  }

  /**
   * Where a page ends: one more element as long as the trial page with it fits, up to `limit`.
   * `None` when not even the first element fits.
   */
  function CutFrom(v: Service, src: Source, offset: nat, limit: nat, index: nat): (end: Option<nat>)
    requires offset <= index <= Total(src) && index - offset <= limit
    ensures end.Some? ==> index <= end.value <= Total(src) && end.value - offset <= limit
    ensures end.Some? && offset < Total(src) && 0 < limit ==> offset < end.value
    decreases Total(src) - index
  {
    if index == Total(src) || index - offset == limit then Some(index)
    else if !v.fits(PageOf(src, offset, index + 1)) then (if index == offset then None else Some(index))
    else CutFrom(v, src, offset, limit, index + 1)
  }

  function Confirm(v: Service, p: Page): Result<Page> {
    if v.fits(p) then Ok(p) else Err("work page exceeded the transport ceiling")
  }

  function ProjectCut(v: Service, src: Source, offset: nat, limit: nat): Result<Page> {
    if offset > Total(src) then Err("detail offset is past the end of the collection")
    else
      match CutFrom(v, src, offset, limit, offset)
      case None => Err("capacity_exhausted")
      case Some(end) => Confirm(v, PageOf(src, offset, end))
  }

  /** `project_attempt_list` and `project_attempt_collection`. */
  function ProjectFenced(v: Service, src: Source, r: Request): Result<Page>
    requires src.Fenced?
  {
    if !AcceptFence(src.fence, r.fence, r.offset) then Err("restart_required")
    else ProjectCut(v, src, r.offset, r.limit)
  }

  function ProjectDependencies(v: Service, item: WorkItem, r: Request): Result<Page> {
    var total := |item.dependencies|;
    if r.offset > total then Err("detail offset is past the end of the collection")
    else
      var end := if r.offset + r.limit <= total then r.offset + r.limit else total;
      Confirm(v, Page(item.workId, item.revision, Dependencies, r.offset, end == total, Ends(total, end),
                      ListBody(Dependencies, item.dependencies[r.offset..end]), None, None))
  }

  function ScalarPage(item: WorkItem, r: Request, body: Body): Page {
    Page(item.workId, item.revision, r.section, r.offset, true, None, body, None, None)
  }

  // ------------------------------------------------------------------ the tool

  predicate Nested(s: Section) {
    s.AttemptDetail? || s.AttemptEvidence? || s.AttemptArtifacts?
  }

  predicate ContainsParentStep(s: string) {
    exists i :: 0 <= i < |s| - 1 && s[i] == '.' && s[i + 1] == '.'
  }

  predicate ValidAttemptId(s: string) {
    s != "" && |s| <= 256 && !ContainsParentStep(s) && '/' !in s && '\\' !in s && '\0' !in s
  }

  function FindAttempt(attempts: seq<AttemptView>, id: string): (r: Option<AttemptView>)
    ensures r.Some? ==> r.value in attempts && r.value.attemptId == id
    ensures r.None? ==> forall a :: a in attempts ==> a.attemptId != id
  {
    if attempts == [] then None
    else if attempts[0].attemptId == id then Some(attempts[0])
    else FindAttempt(attempts[1..], id)
  }

  /** An empty fence counts as absent. */
  function NormalFence(f: Option<string>): Option<string> {
    if f.Some? && f.value == "" then None else f
  }

  function ProjectNested(v: Service, item: WorkItem, a: AttemptView, r: Request): Result<Page>
    requires Nested(r.section)
  {
    var fence := v.attemptDigest(a);
    match r.section
    case AttemptDetail =>
      if r.offset != 0 then Err("attempt detail does not accept an offset")
      else if !AcceptFence(fence, r.fence, 0) then Err("restart_required")
      else
        var p := Page(item.workId, item.revision, AttemptDetail, 0, true, None,
                      AttemptBody(SummaryOf(v, a)), Some(a.attemptId), Some(fence));
        if v.fits(p) then Ok(p) else Err("capacity_exhausted")
    case AttemptEvidence => ProjectFenced(v, Fenced(item, AttemptEvidence, EvidenceOf(a.result), Some(a.attemptId), fence), r)
    case _ => ProjectFenced(v, Fenced(item, AttemptArtifacts, ArtifactsOf(a.result), Some(a.attemptId), fence), r)
  }

  /** `project_work_detail`. */
  function ProjectWorkDetail(v: Service, item: WorkItem, attempts: seq<AttemptView>, r0: Request): Result<Page> {
    var r := r0.(fence := NormalFence(r0.fence));
    if r.limit == 0 || r.limit > MAX_WORK_DETAIL_LIMIT then Err("limit is out of range")
    else if r.fence.Some? && !IsFence(r.fence.value) then Err("attempt consistency fence is not valid")
    else if Nested(r.section) && r.attemptId.None? then Err("attempt_id is required")
    else if !Nested(r.section) && r.attemptId.Some? then Err("attempt_id is only valid for an attempt detail page")
    else if r.fence.Some? && !Nested(r.section) && !r.section.Attempts? then Err("consistency fence is only valid for attempt pages")
    else match r.section
      case Attempts =>
        ProjectFenced(v, Fenced(item, Attempts, Summaries(v, attempts), None, ListFence(v, attempts)), r)
      case Summary => Confirm(v, ScalarPage(item, r, SummaryBody(item.workId, item.identity, item.revision)))
      case Objective => Confirm(v, ScalarPage(item, r, ObjectiveBody(item.objective)))
      case Progress => Confirm(v, ScalarPage(item, r, ProgressBody(item.progress)))
      case Policy => Confirm(v, ScalarPage(item, r, PolicyBody(item.policy)))
      case Dependencies => ProjectDependencies(v, item, r)
      case Outcome => ProjectCut(v, Results(item), r.offset, r.limit)
      case _ =>
        if !ValidAttemptId(r.attemptId.value) then Err("unknown attempt_id")
        else match FindAttempt(attempts, r.attemptId.value)
          case None => Err("unknown attempt_id")
          case Some(a) => if a.workId != item.workId then Err("unknown attempt_id") else ProjectNested(v, item, a, r)
  }

  // ------------------------------------------------ which requests are answered

  /** Every shorter nonempty page fits, and the page is as long as the limit and the budget allow. */
  predicate Longest(v: Service, src: Source, offset: nat, limit: nat, end: nat)
    requires offset <= end <= Total(src)
  {
    && end - offset <= limit
    && (forall k: nat :: offset < k <= end ==> v.fits(PageOf(src, offset, k)))
    && (end == Total(src) || end - offset == limit || !v.fits(PageOf(src, offset, end + 1)))
  }

  lemma {:induction false} CutIsLongest(v: Service, src: Source, offset: nat, limit: nat, index: nat)
    requires offset <= index <= Total(src) && index - offset <= limit
    requires forall k: nat :: offset < k <= index ==> v.fits(PageOf(src, offset, k))
    ensures var end := CutFrom(v, src, offset, limit, index);
            if end.Some? then Longest(v, src, offset, limit, end.value)
            else index == offset && offset < Total(src) && 0 < limit && !v.fits(PageOf(src, offset, offset + 1))
    decreases Total(src) - index
  {
    hide PageOf;
    if index < Total(src) && index - offset < limit && v.fits(PageOf(src, offset, index + 1)) {
      CutIsLongest(v, src, offset, limit, index + 1);
    }
  }

  /** The least a page has to carry: one element, or none at the very end. */
  predicate Deliverable(v: Service, src: Source, offset: nat) {
    offset <= Total(src) && v.fits(PageOf(src, offset, if offset < Total(src) then offset + 1 else offset))
  }

  /** A budgeted page is served exactly when its first element fits, and then it is the longest that does. */
  lemma CutServesExactly(v: Service, src: Source, offset: nat, limit: nat)
    requires limit > 0
    ensures ProjectCut(v, src, offset, limit).Ok? <==> Deliverable(v, src, offset)
    ensures ProjectCut(v, src, offset, limit).Ok? ==>
              exists end: nat :: offset <= end <= Total(src) && Longest(v, src, offset, limit, end)
                              && ProjectCut(v, src, offset, limit).value == PageOf(src, offset, end)
  {
    hide PageOf;
    if offset <= Total(src) { CutIsLongest(v, src, offset, limit, offset); }
  }

  /** No separator, no terminator, no step to the parent. */
  predicate OneSegment(id: string) {
    && 1 <= |id| <= 256
    && (forall i :: 0 <= i < |id| ==> id[i] != '/' && id[i] != '\\' && id[i] != '\0')
    && (forall i :: 0 <= i < |id| - 1 ==> id[i] != '.' || id[i + 1] != '.')
  }

  predicate NoFence(f: Option<string>) {
    f.None? || f.value == ""
  }

  /** What the tool asks of a request before it looks at the item. */
  predicate WellPosed(r: Request) {
    && 1 <= r.limit <= MAX_WORK_DETAIL_LIMIT
    && (NoFence(r.fence) || (IsFence(r.fence.value) && (r.section.Attempts? || Nested(r.section))))
    && (Nested(r.section) <==> r.attemptId.Some?)
  }

  /** A first page may come without a fence; any later one has to name the fence that still holds. */
  predicate Current(fence: string, r: Request) {
    if NoFence(r.fence) then r.offset == 0 else r.fence.value == fence
  }

  /** The attempt a nested request names, if it is one of this item's. */
  predicate Names(item: WorkItem, attempts: seq<AttemptView>, id: string, a: AttemptView) {
    OneSegment(id) && FindAttempt(attempts, id) == Some(a) && a.workId == item.workId
  }

  predicate NestedServes(v: Service, item: WorkItem, a: AttemptView, r: Request)
    requires Nested(r.section)
  {
    var fence := v.attemptDigest(a);
    && Current(fence, r)
    && match r.section
       case AttemptDetail =>
         && r.offset == 0
         && v.fits(Page(item.workId, item.revision, AttemptDetail, 0, true, None, AttemptBody(SummaryOf(v, a)),
                        Some(a.attemptId), Some(fence)))
       case AttemptEvidence =>
         Deliverable(v, Fenced(item, AttemptEvidence, EvidenceOf(a.result), Some(a.attemptId), fence), r.offset)
       case _ =>
         Deliverable(v, Fenced(item, AttemptArtifacts, ArtifactsOf(a.result), Some(a.attemptId), fence), r.offset)
  }

  lemma FencedServesExactly(v: Service, src: Source, r: Request)
    requires src.Fenced? && r.limit > 0 && IsFence(src.fence)
    ensures ProjectFenced(v, src, r.(fence := NormalFence(r.fence))).Ok? <==>
            Current(src.fence, r) && Deliverable(v, src, r.offset)
  {
    hide ProjectCut, Deliverable;
    CutServesExactly(v, src, r.offset, r.limit);
  }

  /** A nested request is answered exactly when it names an attempt of the item, under a fence that holds, and fits. */
  lemma NestedAnsweredExactly(v: Service, item: WorkItem, attempts: seq<AttemptView>, r: Request)
    requires Rendered(v) && Nested(r.section)
    ensures ProjectWorkDetail(v, item, attempts, r).Ok? <==>
            WellPosed(r) && exists a :: Names(item, attempts, r.attemptId.value, a) && NestedServes(v, item, a, r)
  {
    hide ProjectFenced, Deliverable;
    if WellPosed(r) {
      OneSegmentExactly(r.attemptId.value);
      var found := FindAttempt(attempts, r.attemptId.value);
      if found.Some? {
        var a := found.value;
        NestedServesExactly(v, item, a, r);
        assert Names(item, attempts, r.attemptId.value, a) <==> ValidAttemptId(r.attemptId.value) && a.workId == item.workId;
      }
    }
  }

  lemma OneSegmentExactly(id: string)
    ensures ValidAttemptId(id) <==> OneSegment(id)
  {
  }

  lemma NestedServesExactly(v: Service, item: WorkItem, a: AttemptView, r: Request)
    requires Rendered(v) && Nested(r.section) && r.limit > 0
    ensures ProjectNested(v, item, a, r.(fence := NormalFence(r.fence))).Ok? <==> NestedServes(v, item, a, r)
  {
    hide ProjectFenced, Deliverable;
    var fence := v.attemptDigest(a);
    FencedServesExactly(v, Fenced(item, AttemptEvidence, EvidenceOf(a.result), Some(a.attemptId), fence), r);
    FencedServesExactly(v, Fenced(item, AttemptArtifacts, ArtifactsOf(a.result), Some(a.attemptId), fence), r);
  }

  predicate SectionServes(v: Service, item: WorkItem, attempts: seq<AttemptView>, r: Request) {
    match r.section
    case Attempts =>
      && Current(ListFence(v, attempts), r)
      && Deliverable(v, Fenced(item, Attempts, Summaries(v, attempts), None, ListFence(v, attempts)), r.offset)
    case Outcome => Deliverable(v, Results(item), r.offset)
    case Dependencies => r.offset <= |item.dependencies| && v.fits(DependencySlice(item, r.offset, r.limit))
    case Summary => v.fits(ScalarPage(item, r, SummaryBody(item.workId, item.identity, item.revision)))
    case Objective => v.fits(ScalarPage(item, r, ObjectiveBody(item.objective)))
    case Progress => v.fits(ScalarPage(item, r, ProgressBody(item.progress)))
    case _ => v.fits(ScalarPage(item, r, PolicyBody(item.policy)))
  }

  /** Up to `limit` dependencies from an offset, with the offset to go on from. */
  function DependencySlice(item: WorkItem, offset: nat, limit: nat): Page
    requires offset <= |item.dependencies|
  {
    var rest := item.dependencies[offset..];
    var taken := if |rest| <= limit then rest else rest[..limit];
    var done := |taken| == |rest|;
    Page(item.workId, item.revision, Dependencies, offset, done, if done then None else Some(offset + limit),
         ListBody(Dependencies, taken), None, None)
  }

  /** Any other request is answered exactly when it is well posed, its fence holds and its section fits. */
  lemma AnsweredExactly(v: Service, item: WorkItem, attempts: seq<AttemptView>, r: Request)
    requires Rendered(v) && !Nested(r.section)
    ensures ProjectWorkDetail(v, item, attempts, r).Ok? <==> WellPosed(r) && SectionServes(v, item, attempts, r)
  {
    hide ProjectFenced, ProjectCut, Deliverable;
    if WellPosed(r) {
      var fence := ListFence(v, attempts);
      FencedServesExactly(v, Fenced(item, Attempts, Summaries(v, attempts), None, fence), r);
      CutServesExactly(v, Results(item), r.offset, r.limit);
      if r.section.Dependencies? && r.offset <= |item.dependencies| { DependencySlices(v, item, r); }
    }
  }

  lemma DependencySlices(v: Service, item: WorkItem, r: Request)
    requires r.limit > 0 && r.offset <= |item.dependencies|
    ensures ProjectDependencies(v, item, r) == Confirm(v, DependencySlice(item, r.offset, r.limit))
  {
    var total := |item.dependencies|;
    var end := if r.offset + r.limit <= total then r.offset + r.limit else total;
    var rest := item.dependencies[r.offset..];
    assert item.dependencies[r.offset..end] == if |rest| <= r.limit then rest else rest[..r.limit];
  }

  /** Whatever is answered fits the transport. */
  lemma AnswersFit(v: Service, item: WorkItem, attempts: seq<AttemptView>, r: Request)
    ensures var p := ProjectWorkDetail(v, item, attempts, r);
            p.Ok? ==> v.fits(p.value)
  {
    hide CutFrom, PageOf, Summaries, ListFence, FindAttempt;
  }

  // --------------------------------------------------- the page loops as coded

  /** The loop of `project_attempt_list`, and of `project_attempt_collection` section by section. */
  method TakeFenced(v: Service, src: Source, r: Request) returns (p: Result<Page>)
    requires src.Fenced?
    ensures p == ProjectFenced(v, src, r)
  {
    var item, all := src.item, src.all;
    if !AcceptFence(src.fence, r.fence, r.offset) {
      return Err("restart_required");
    }
    if r.offset > |all| {
      return Err("detail offset is past the end of the collection");
    }
    var index, taken := r.offset, [];
    ghost var goal := CutFrom(v, src, r.offset, r.limit, r.offset);
    while index < |all| && |taken| < r.limit
      invariant r.offset <= index <= |all| && taken == all[r.offset..index] && |taken| <= r.limit
      invariant goal == CutFrom(v, src, r.offset, r.limit, index)
      decreases |all| - index
    {
      taken := taken + [all[index]];
      index := index + 1;
      var complete := index == |all|;
      var trial := Page(item.workId, item.revision, src.section, r.offset, complete,
                        if complete then None else Some(index), ListBody(src.section, taken),
                        src.attemptId, Some(src.fence));
      assert taken == all[r.offset..index];
      assert trial == PageOf(src, r.offset, index);
      if !v.fits(trial) {
        if |taken| == 1 {
          return Err("capacity_exhausted");
        }
        taken := taken[..|taken| - 1];
        index := index - 1;
        assert taken == all[r.offset..index] && goal == Some(index);
        break;
      }
    }
    assert goal == Some(index);
    var complete := index >= |all|;
    var page := Page(item.workId, item.revision, src.section, r.offset, complete,
                     if complete then None else Some(index), ListBody(src.section, taken),
                     src.attemptId, Some(src.fence));
    assert page == PageOf(src, r.offset, index);
    p := Confirm(v, page);
  }

  /** The loop of the result section. */
  method TakeOutcome(v: Service, item: WorkItem, offset: nat, limit: nat) returns (p: Result<Page>)
    ensures p == ProjectCut(v, Results(item), offset, limit)
  {
    hide Span, Clamp;
    var evidence, artifacts := EvidenceOf(item.result), ArtifactsOf(item.result);
    var total := |evidence| + |artifacts|;
    if offset > total {
      return Err("detail offset is past the end of the collection");
    }
    var takenEvidence, takenArtifacts, index, count := [], [], offset, 0;
    ghost var src := Results(item);
    ghost var goal := CutFrom(v, src, offset, limit, offset);
    SpanStarts(evidence, offset);
    SpanStarts(artifacts, offset - |evidence|);
    while index < total && count < limit
      invariant offset <= index <= total && count == index - offset <= limit
      invariant takenEvidence == Span(evidence, offset, index)
      invariant takenArtifacts == Span(artifacts, offset - |evidence|, index - |evidence|)
      invariant goal == CutFrom(v, src, offset, limit, index)
      decreases total - index
    {
      ghost var before := (takenEvidence, takenArtifacts);
      if index < |evidence| {
        takenEvidence := takenEvidence + [evidence[index]];
      } else {
        takenArtifacts := takenArtifacts + [artifacts[index - |evidence|]];
      }
      index := index + 1;
      count := count + 1;
      SpanGrows(evidence, artifacts, offset, index - 1);
      assert before.0 + [] == before.0 && before.1 + [] == before.1;
      var trial := Page(item.workId, item.revision, Outcome, offset, index == total,
                        if index != total then Some(index) else None,
                        OutcomeBody(MetaOf(item.result), takenEvidence, takenArtifacts), None, None);
      assert trial == PageOf(src, offset, index);
      if !v.fits(trial) {
        if count == 1 {
          return Err("capacity_exhausted");
        }
        index := index - 1;
        if index < |evidence| {
          takenEvidence := takenEvidence[..|takenEvidence| - 1];
        } else {
          takenArtifacts := takenArtifacts[..|takenArtifacts| - 1];
        }
        assert before == (takenEvidence, takenArtifacts) && goal == Some(index);
        break;
      }
    }
    assert goal == Some(index);
    var complete := index >= total;
    var page := Page(item.workId, item.revision, Outcome, offset, complete,
                     if !complete then Some(index) else None,
                     OutcomeBody(MetaOf(item.result), takenEvidence, takenArtifacts), None, None);
    assert page == PageOf(src, offset, index);
    p := Confirm(v, page);
  }

  lemma SpanStarts(s: seq<Elem>, lo: int)
    ensures Span(s, lo, lo) == []
  {
  }

  /** One more position of a result is one more piece of evidence or one more artifact. */
  lemma SpanGrows(evidence: seq<Elem>, artifacts: seq<Elem>, offset: nat, index: nat)
    requires offset <= index < |evidence| + |artifacts|
    ensures Span(evidence, offset, index + 1)
         == Span(evidence, offset, index) + (if index < |evidence| then [evidence[index]] else [])
    ensures Span(artifacts, offset - |evidence|, index + 1 - |evidence|)
         == Span(artifacts, offset - |evidence|, index - |evidence|)
            + (if index < |evidence| then [] else [artifacts[index - |evidence|]])
  {
  }
}

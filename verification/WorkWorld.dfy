/**
 * A server whose Work changes between any two page reads, as the history of what it held at each
 * call, and what one page says about that history.
 */
module WorkWorld {

  import opened Wrappers
  import opened WorkPages

  /** Bound of every page walk. */
  const MAX_PAGES: nat := 1024

  /** The reply to the k-th page request; an error covers refusals and lost replies alike. */
  type Transport = (nat, Request) -> Result<Page>

  // ------------------------------------------------------------ the world around

  /** What the store holds for the requested work id at one instant. */
  datatype Moment = Moment(item: Option<WorkItem>, attempts: seq<AttemptView>)

  /** A history of the store, and the instants at which call k loads the item and the attempts. */
  datatype World = World(
    service: Service,
    hist: nat -> Moment,
    itemAt: nat -> nat,
    attemptsAt: nat -> nat)

  function ItemOf(w: World, k: nat): Option<WorkItem> {
    w.hist(w.itemAt(k)).item
  }

  function AttemptsOf(w: World, k: nat): seq<AttemptView> {
    w.hist(w.attemptsAt(k)).attempts
  }

  /** Calls follow one another, and each loads the item before the attempts. */
  ghost predicate Ordered(w: World) {
    forall k: nat :: w.itemAt(k) <= w.attemptsAt(k) <= w.itemAt(k + 1)
  }

  /** Every change to an item raises its revision; items stay. */
  ghost predicate Versioned(w: World) {
    && (forall i: nat, j: nat | i <= j && w.hist(i).item.Some? ::
          w.hist(j).item.Some? && w.hist(i).item.value.revision <= w.hist(j).item.value.revision)
    && (forall i: nat, j: nat | w.hist(i).item.Some? && w.hist(j).item.Some? ::
          w.hist(i).item.value.revision == w.hist(j).item.value.revision ==> w.hist(i).item == w.hist(j).item)
  }

  /** Recorded attempts do not vanish, and their ids hold no line break. */
  ghost predicate Recorded(w: World) {
    && (forall i: nat, j: nat :: i <= j && w.hist(j).attempts == [] ==> w.hist(i).attempts == [])
    && (forall i: nat :: PlainIds(w.hist(i).attempts))
  }

  /** The digests met in this history do not collide. */
  ghost predicate NoCollisions(w: World) {
    var v := w.service;
    && Rendered(v)
    && (forall i: nat, j: nat :: Distinct(v, w.hist(i).attempts, w.hist(j).attempts))
    && (forall i: nat, j: nat | ListFence(v, w.hist(i).attempts) == ListFence(v, w.hist(j).attempts) ::
          Lines(v, w.hist(i).attempts) == Lines(v, w.hist(j).attempts))
  }

  ghost predicate Lawful(w: World) {
    NoCollisions(w) && Ordered(w) && Versioned(w) && Recorded(w)
  }

  /** The assumptions are consistent, with an item and attempts that change and fences that tell them apart. */
  lemma LawfulWorld() returns (w: World)
    ensures Lawful(w) && w.hist(0).item != w.hist(1).item
    ensures w.hist(0).attempts != [] && w.hist(0).attempts != w.hist(1).attempts
    ensures ListFence(w.service, w.hist(0).attempts) != ListFence(w.service, w.hist(1).attempts)
  {
    hide Lawful, Lines, Line;
    var item := WorkItem("w", 0, "", "", None, "", [], None);
    var before, after := AttemptView("a", "w", "running", None), AttemptView("a", "w", "done", None);
    var v := TellsApart(before, after);
    w := World(v, (t: nat) => Moment(Some(item.(revision := t)), if t == 0 then [before] else [after]),
               (k: nat) => k, (k: nat) => k);
    TwoMomentsAreLawful(w, item, before, after);
  }

  /** Digests for two attempts with one id. */
  lemma TellsApart(before: AttemptView, after: AttemptView) returns (v: Service)
    requires before != after && before.attemptId == after.attemptId == "a"
    ensures Rendered(v) && v.attemptDigest(before) != v.attemptDigest(after)
    ensures ListFence(v, [before]) != ListFence(v, [after])
  {
    var zeros, ones := seq(FENCE_LENGTH, _ => '0'), seq(FENCE_LENGTH, _ => '1');
    assert IsFence(zeros) && IsFence(ones) && zeros[0] != ones[0];
    var first := "a\t" + zeros + "\n";
    v := Service((a: AttemptView) => if a == before then zeros else ones, s => if s == first then zeros else ones, _ => true);
    OneLine(v, before);
    OneLine(v, after);
    assert Line(v, before)[2] == zeros[0] && Line(v, after)[2] == ones[0];
    assert Line(v, before) == first;
  }

  lemma TwoMomentsAreLawful(w: World, item: WorkItem, before: AttemptView, after: AttemptView)
    requires Rendered(w.service) && w.service.attemptDigest(before) != w.service.attemptDigest(after)
    requires ListFence(w.service, [before]) != ListFence(w.service, [after])
    requires PlainIds([before]) && PlainIds([after])
    requires forall t: nat :: w.hist(t) == Moment(Some(item.(revision := t)), if t == 0 then [before] else [after])
    requires forall k: nat :: w.itemAt(k) == k && w.attemptsAt(k) == k
    ensures Lawful(w)
  {
    hide Lines, ListFence;
  }

  lemma OneLine(v: Service, a: AttemptView)
    ensures Lines(v, [a]) == Line(v, a)
  {
    assert [a][1..] == [] && Line(v, a) + "" == Line(v, a);
  }

  /** What the service answers to call k. */
  function Reply(w: World, k: nat, r: Request): Result<Page> {
    match ItemOf(w, k)
    case None => Err("unknown work_id")
    case Some(item) =>
      if item.workId != r.workId then Err("unknown work_id")
      else ProjectWorkDetail(w.service, item, AttemptsOf(w, k), r)
  }

  /** Replies that arrive are the service's. */
  ghost predicate Faithful(w: World, net: Transport) {
    forall k: nat, r: Request :: net(k, r).Ok? ==> net(k, r) == Reply(w, k, r)
  }

  ghost predicate Honest(w: World, net: Transport) {
    Lawful(w) && Faithful(w, net)
  }

  /** From call k0 on nothing changes, every reply arrives and every page fits. */
  ghost predicate Quiet(w: World, net: Transport, k0: nat) {
    && (forall k: nat, r: Request :: k0 <= k ==> net(k, r) == Reply(w, k, r))
    && (forall k: nat :: k0 <= k ==> ItemOf(w, k) == ItemOf(w, k0) && AttemptsOf(w, k) == AttemptsOf(w, k0))
    && (forall p: Page :: w.service.fits(p))
  }

  /** The item loaded by call k is the requested one at the given revision. */
  ghost predicate SeenAt(w: World, k: nat, workId: string, revision: nat) {
    ItemOf(w, k).Some? && ItemOf(w, k).value.workId == workId && ItemOf(w, k).value.revision == revision
  }

  lemma {:induction false} LaterCall(w: World, j: nat, k: nat)
    requires Ordered(w) && j < k
    ensures w.attemptsAt(j) <= w.itemAt(k)
    decreases k
  {
    if j + 1 < k {
      LaterCall(w, j, k - 1);
      assert w.itemAt(k - 1) <= w.attemptsAt(k - 1) <= w.itemAt(k - 1 + 1);
    } else {
      assert w.itemAt(j) <= w.attemptsAt(j) <= w.itemAt(j + 1);
    }
  }

  lemma SameItem(w: World, j: nat, k: nat, workId: string, revision: nat)
    requires Versioned(w) && SeenAt(w, j, workId, revision) && SeenAt(w, k, workId, revision)
    ensures ItemOf(w, j) == ItemOf(w, k)
  {
  }

  // --------------------------------------------------------- pages are slices

  /** `body.get(field).and_then(as_array).unwrap_or_default()`. */
  function Items(body: Body, field: Section): seq<Elem> {
    if body.ListBody? && body.field == field then body.items else []
  }

  /** Metadata carried by a result page; anything else reads as null. */
  function MetaIn(body: Body): MetaJson {
    if body.OutcomeBody? then body.meta else NULL_META
  }

  function EvidenceIn(body: Body): seq<Elem> {
    if body.OutcomeBody? then body.evidence else []
  }

  function ArtifactsIn(body: Body): seq<Elem> {
    if body.OutcomeBody? then body.artifacts else []
  }

  function PageEnd(p: Page, total: nat): nat {
    if p.complete || p.nextOffset.None? then total else p.nextOffset.value
  }

  /** A page that says where it stops, and stops later than it started unless it is the last. */
  predicate Advances(p: Page, offset: nat, total: nat) {
    && offset <= PageEnd(p, total) <= total
    && (p.complete <==> PageEnd(p, total) == total)
    && (!p.complete ==> p.nextOffset.Some? && offset < p.nextOffset.value)
  }

  lemma DependencyPage(w: World, k: nat, r: Request, p: Page)
    requires Reply(w, k, r) == Ok(p) && r.section.Dependencies?
    ensures SeenAt(w, k, r.workId, p.revision) && p.workId == r.workId
    ensures var all := ItemOf(w, k).value.dependencies;
            Advances(p, r.offset, |all|) && Items(p.body, Dependencies) == all[r.offset..PageEnd(p, |all|)]
  {
  }

  lemma OutcomePage(w: World, k: nat, r: Request, p: Page)
    requires Reply(w, k, r) == Ok(p) && r.section.Outcome?
    ensures SeenAt(w, k, r.workId, p.revision) && p.workId == r.workId
    ensures var src := Results(ItemOf(w, k).value);
            var end := PageEnd(p, Total(src));
            Advances(p, r.offset, Total(src)) && p.body == PageOf(src, r.offset, end).body
  {
  }

  /** The fenced collection that call k would page through. */
  function SourceAt(w: World, k: nat, section: Section, attemptId: Option<string>): (src: Option<Source>)
    ensures src.Some? ==> src.value.Fenced?
  {
    if ItemOf(w, k).None? then None
    else
      var item, v := ItemOf(w, k).value, w.service;
      if section.Attempts? then
        Some(Fenced(item, Attempts, Summaries(v, AttemptsOf(w, k)), None, ListFence(v, AttemptsOf(w, k))))
      else if attemptId.None? then None
      else
        match FindAttempt(AttemptsOf(w, k), attemptId.value)
        case None => None
        case Some(a) =>
          var all := if section.AttemptEvidence? then EvidenceOf(a.result) else ArtifactsOf(a.result);
          Some(Fenced(item, section, all, Some(a.attemptId), v.attemptDigest(a)))
  }

  predicate Paged(s: Section) {
    s.Attempts? || s.AttemptEvidence? || s.AttemptArtifacts?
  }

  /** A request for a fenced collection that is answered at all is answered by cutting that collection. */
  lemma Routed(w: World, k: nat, r: Request)
    requires Paged(r.section)
    ensures Reply(w, k, r).Ok? ==>
              && SeenAt(w, k, r.workId, ItemOf(w, k).value.revision)
              && SourceAt(w, k, r.section, r.attemptId).Some?
              && var src := SourceAt(w, k, r.section, r.attemptId).value;
                 Reply(w, k, r) == ProjectFenced(w.service, src, r.(fence := NormalFence(r.fence)))
  {
    hide ProjectFenced, Summaries, ListFence;
  }

  lemma FencedPage(w: World, k: nat, r: Request, p: Page)
    requires Reply(w, k, r) == Ok(p) && Paged(r.section)
    ensures SeenAt(w, k, r.workId, p.revision) && p.workId == r.workId
    ensures SourceAt(w, k, r.section, r.attemptId).Some?
    ensures var src := SourceAt(w, k, r.section, r.attemptId).value;
            && p.fence == Some(src.fence)
            && Advances(p, r.offset, |src.all|)
            && Items(p.body, r.section) == src.all[r.offset..PageEnd(p, |src.all|)]
  {
    Routed(w, k, r);
    hide Reply, Summaries, ListFence;
  }

  /** A fence determines the collection it fences, whenever it is met. */
  lemma SameFenceSameCollection(w: World, j: nat, k: nat, section: Section, attemptId: Option<string>)
    requires Lawful(w) && Paged(section)
    requires SourceAt(w, j, section, attemptId).Some? && SourceAt(w, k, section, attemptId).Some?
    requires SourceAt(w, j, section, attemptId).value.fence == SourceAt(w, k, section, attemptId).value.fence
    ensures SourceAt(w, j, section, attemptId).value.all == SourceAt(w, k, section, attemptId).value.all
  {
    if section.Attempts? {
      ListFenceDetermines(w.service, AttemptsOf(w, j), AttemptsOf(w, k));
    } else {
      assert Distinct(w.service, AttemptsOf(w, j), AttemptsOf(w, k));
    }
  }

  /** With no budget to respect, a cut is as long as the limit allows. */
  lemma {:induction false} FullCut(v: Service, src: Source, offset: nat, limit: nat, index: nat)
    requires offset <= index <= Total(src) && index - offset <= limit
    requires forall p: Page :: v.fits(p)
    ensures CutFrom(v, src, offset, limit, index)
         == Some(if offset + limit <= Total(src) then offset + limit else Total(src))
    decreases Total(src) - index
  {
    if index < Total(src) && index - offset < limit {
      FullCut(v, src, offset, limit, index + 1);
    }
  }

  /** A full page of the given width, or the last one. */
  predicate Full(p: Page, offset: nat, total: nat) {
    && (p.complete <==> total <= offset + MAX_WORK_DETAIL_LIMIT)
    && (!p.complete ==> p.nextOffset == Some(offset + MAX_WORK_DETAIL_LIMIT))
  }

  lemma QuietOutcomePage(w: World, k: nat, r: Request)
    requires forall p: Page :: w.service.fits(p)
    requires ItemOf(w, k).Some? && ItemOf(w, k).value.workId == r.workId
    requires r == Request(r.workId, Outcome, r.offset, MAX_WORK_DETAIL_LIMIT, None, None)
    requires r.offset <= Total(Results(ItemOf(w, k).value))
    ensures Reply(w, k, r).Ok?
    ensures var p, item := Reply(w, k, r).value, ItemOf(w, k).value;
            && p.workId == r.workId && p.revision == item.revision
            && Full(p, r.offset, Total(Results(item)))
            && MetaIn(p.body) == MetaOf(item.result)
            && (!p.complete ==> EvidenceIn(p.body) != [] || ArtifactsIn(p.body) != [])
  {
    var item := ItemOf(w, k).value;
    FullCut(w.service, Results(item), r.offset, r.limit, r.offset);
  }

  /** The service can page through this collection, under this fence if one is presented. */
  predicate Servable(w: World, k: nat, workId: string, section: Section, attemptId: Option<string>, fence: Option<string>) {
    && Paged(section)
    && SourceAt(w, k, section, attemptId).Some?
    && (fence.Some? ==> fence.value == SourceAt(w, k, section, attemptId).value.fence)
    && if section.Attempts? then attemptId.None?
       else
         && ValidAttemptId(attemptId.value)
         && FindAttempt(AttemptsOf(w, k), attemptId.value).value.workId == workId
  }

  lemma QuietFencedPage(w: World, k: nat, r: Request)
    requires Rendered(w.service) && forall p: Page :: w.service.fits(p)
    requires Servable(w, k, r.workId, r.section, r.attemptId, r.fence) && ItemOf(w, k).value.workId == r.workId
    requires r.limit == MAX_WORK_DETAIL_LIMIT && (r.offset == 0 || r.fence.Some?)
    requires r.offset <= |SourceAt(w, k, r.section, r.attemptId).value.all|
    ensures Reply(w, k, r).Ok?
    ensures var p, src := Reply(w, k, r).value, SourceAt(w, k, r.section, r.attemptId).value;
            && p.workId == r.workId && p.revision == ItemOf(w, k).value.revision
            && p.attemptId == r.attemptId && p.fence == Some(src.fence)
            && Full(p, r.offset, |src.all|)
            && (!p.complete ==> Items(p.body, r.section) != [])
  {
    var src := SourceAt(w, k, r.section, r.attemptId).value;
    FullCut(w.service, src, r.offset, r.limit, r.offset);
    assert IsFence(src.fence);
    Answered(w, k, r);
    hide Reply, Summaries, ListFence;
  }

  lemma Answered(w: World, k: nat, r: Request)
    requires Servable(w, k, r.workId, r.section, r.attemptId, r.fence) && ItemOf(w, k).value.workId == r.workId
    requires r.limit == MAX_WORK_DETAIL_LIMIT && IsFence(SourceAt(w, k, r.section, r.attemptId).value.fence)
    ensures Reply(w, k, r) == ProjectFenced(w.service, SourceAt(w, k, r.section, r.attemptId).value, r)
  {
    hide ProjectFenced, Summaries, ListFence;
  }

  function CollectionAt(w: World, k: nat, section: Section, attemptId: Option<string>): seq<Elem> {
    var src := SourceAt(w, k, section, attemptId);
    if src.Some? then src.value.all else []
  }

  function FenceAt(w: World, k: nat, section: Section, attemptId: Option<string>): string {
    var src := SourceAt(w, k, section, attemptId);
    if src.Some? then src.value.fence else ""
  }

  /** Nothing stands in the way of a fenced walk that starts with call k0. */
  ghost predicate Calm(w: World, net: Transport, k0: nat, revision: nat, r: Request) {
    && Honest(w, net) && Quiet(w, net, k0)
    && SeenAt(w, k0, r.workId, revision)
    && Servable(w, k0, r.workId, r.section, r.attemptId, r.fence)
  }

  /** Then every page of it is full, under the same fence. */
  lemma CalmReply(w: World, net: Transport, k0: nat, revision: nat, start: Request, k: nat, r: Request)
    requires Calm(w, net, k0, revision, start) && k0 <= k
    requires start.offset == 0 && start.limit == MAX_WORK_DETAIL_LIMIT
    requires r == start || r == start.(offset := r.offset, fence := Some(FenceAt(w, k0, r.section, r.attemptId)))
    requires r.offset <= |CollectionAt(w, k0, r.section, r.attemptId)|
    ensures net(k, r).Ok?
    ensures var p := net(k, r).value;
            && p.workId == r.workId && p.revision == revision
            && p.attemptId == r.attemptId && p.fence == Some(FenceAt(w, k0, r.section, r.attemptId))
            && (start.fence.Some? ==> start.fence == p.fence)
            && Full(p, r.offset, |CollectionAt(w, k0, r.section, r.attemptId)|)
            && (!p.complete ==> Items(p.body, r.section) != [])
  {
    hide Reply, Items, Full;
    assert ItemOf(w, k) == ItemOf(w, k0) && AttemptsOf(w, k) == AttemptsOf(w, k0);
    assert SourceAt(w, k, r.section, r.attemptId) == SourceAt(w, k0, r.section, r.attemptId);
    QuietFencedPage(w, k, r);
  }

  /** A page that is a slice extends a prefix of the collection to where it stops. */
  lemma SliceJoins(all: seq<Elem>, p: Page, offset: nat, collected: seq<Elem>, batch: seq<Elem>)
    requires Advances(p, offset, |all|) && batch == all[offset..PageEnd(p, |all|)] && collected == all[..offset]
    ensures p.complete ==> collected + batch == all
    ensures !p.complete ==>
              p.nextOffset.Some? && p.nextOffset.value <= |all| && collected + batch == all[..p.nextOffset.value]
  {
  }
}

/**
 * The client's page walks: the loops that collect one array or one result from many pages, with
 * the fences and the revision checked on every page.
 */
module WorkWalks {

  import opened Wrappers
  import opened WorkPages
  import opened WorkWorld

  // --------------------------------------------------------------- page walks

  /** Offsets asked for by a walk. */
  predicate Ascending(offsets: seq<nat>) {
    forall i, j :: 0 <= i < j < |offsets| ==> offsets[i] < offsets[j]
  }

  /** What a walk makes of one page: give up, finish, or go on with the next request. */
  datatype Verdict = Refuse(error: string) | Finish(items: seq<Elem>) | Continue(items: seq<Elem>, next: Request)

  /** The checks of `collect_detail_array`, and with `fenced` those of `collect_fenced_array`. */
  function Judge(page: Page, r: Request, revision: nat, fenced: bool, collected: seq<Elem>): (v: Verdict)
    ensures v.Continue? ==> v.next.offset > r.offset && v.next == r.(offset := v.next.offset, fence := v.next.fence)
    ensures v.Continue? && fenced ==> v.next.fence.Some? && (r.fence.Some? ==> v.next.fence == r.fence)
    ensures v.Continue? && !fenced ==> v.next.fence == r.fence
  {
    var batch := Items(page.body, r.section);
    if page.workId != r.workId || page.revision != revision then
      Refuse("work detail revision changed during the read")
    else if fenced && r.attemptId.Some? && page.attemptId != r.attemptId then
      Refuse("attempt detail identity changed during the read")
    else if fenced && (page.fence.None? || (r.fence.Some? && page.fence != r.fence)) then
      Refuse("attempt consistency fence changed during the read")
    else if page.complete then Finish(collected + batch)
    else if batch == [] then Refuse("work detail page did not include data")
    else if page.nextOffset.None? || page.nextOffset.value <= r.offset then
      Refuse("work detail page did not advance")
    else
      Continue(collected + batch, r.(offset := page.nextOffset.value, fence := if fenced then page.fence else r.fence))
  }

  /** A page that belongs to the walk: same item and revision, and for a fenced walk same attempt and fence. */
  predicate Belongs(page: Page, r: Request, revision: nat, fenced: bool) {
    && page.workId == r.workId && page.revision == revision
    && (fenced ==>
          && page.fence.Some?
          && (r.attemptId.Some? ==> page.attemptId == r.attemptId)
          && (r.fence.Some? ==> page.fence == r.fence))
  }

  /**
   * Against any service, a walk takes a page exactly when it belongs to the walk and is the last, or
   * brings something and leads on; what it takes is appended to what it has.
   */
  lemma JudgeTakesExactly(page: Page, r: Request, revision: nat, fenced: bool, collected: seq<Elem>)
    ensures var v, batch := Judge(page, r, revision, fenced, collected), Items(page.body, r.section);
            && (v.Finish? <==> Belongs(page, r, revision, fenced) && page.complete)
            && (v.Continue? <==> && Belongs(page, r, revision, fenced) && !page.complete && batch != []
                                 && page.nextOffset.Some? && page.nextOffset.value > r.offset)
            && (!v.Refuse? ==> v.items == collected + batch)
            && (v.Continue? ==> v.next.offset == page.nextOffset.value)
  {
  }

  /** What a walk over the dependencies that started with call k0 has gathered. */
  ghost predicate WalkedDependencies(w: World, k0: nat, r: Request, revision: nat, collected: seq<Elem>) {
    && SeenAt(w, k0, r.workId, revision)
    && var all := ItemOf(w, k0).value.dependencies;
       r.offset <= |all| && collected == all[..r.offset]
  }

  lemma DependencyStep(w: World, net: Transport, k0: nat, k: nat, r: Request, revision: nat, collected: seq<Elem>)
    requires Honest(w, net) && net(k, r).Ok? && r.section.Dependencies?
    requires (k == k0 && r.offset == 0 && collected == []) || WalkedDependencies(w, k0, r, revision, collected)
    ensures var v := Judge(net(k, r).value, r, revision, false, collected);
            && (v.Finish? ==> SeenAt(w, k0, r.workId, revision) && v.items == ItemOf(w, k0).value.dependencies)
            && (v.Continue? ==> WalkedDependencies(w, k0, v.next, revision, v.items))
  {
    hide Reply, NoCollisions, Ordered, Recorded, Items;
    var p := net(k, r).value;
    DependencyPage(w, k, r, p);
    if p.revision == revision {
      if k != k0 { SameItem(w, k0, k, r.workId, revision); }
      SliceJoins(ItemOf(w, k0).value.dependencies, p, r.offset, collected, Items(p.body, Dependencies));
    }
  }

  lemma QuietDependencyStep(w: World, net: Transport, k0: nat, k: nat, r: Request, revision: nat, collected: seq<Elem>)
    requires Quiet(w, net, k0) && k0 <= k && SeenAt(w, k0, r.workId, revision)
    requires r == Request(r.workId, Dependencies, r.offset, MAX_WORK_DETAIL_LIMIT, None, None)
    requires r.offset <= |ItemOf(w, k0).value.dependencies|
    ensures net(k, r).Ok?
    ensures var v := Judge(net(k, r).value, r, revision, false, collected);
            && !v.Refuse?
            && (v.Finish? <==> |ItemOf(w, k0).value.dependencies| <= r.offset + MAX_WORK_DETAIL_LIMIT)
            && (v.Continue? ==> v.next.offset == r.offset + MAX_WORK_DETAIL_LIMIT)
  {
  }

  /**
   * `collect_detail_array` over the dependencies. Against any service it asks at most 1024 times
   * at strictly increasing offsets. Against an honest one a success is the dependency list of the
   * item loaded by the first call; against a quiet one it succeeds exactly up to 65536 elements.
   */
  method CollectDetailArray(net: Transport, workId: string, revision: nat, k0: nat, ghost w: World)
    returns (r: Result<seq<Elem>>, k: nat, offsets: seq<nat>)
    ensures k == k0 + |offsets| && |offsets| <= MAX_PAGES && Ascending(offsets)
    ensures r.Ok? ==> k0 < k
    ensures Honest(w, net) && r.Ok? ==>
              SeenAt(w, k0, workId, revision) && r.value == ItemOf(w, k0).value.dependencies
    ensures Quiet(w, net, k0) && SeenAt(w, k0, workId, revision) ==>
              (r.Ok? <==> |ItemOf(w, k0).value.dependencies| <= MAX_PAGES * MAX_WORK_DETAIL_LIMIT)
  {
    hide Honest, Quiet, WalkedDependencies, Judge;
    var request, collected := Request(workId, Dependencies, 0, MAX_WORK_DETAIL_LIMIT, None, None), [];
    k, offsets := k0, [];
    for n := 0 to MAX_PAGES
      invariant k == k0 + n && |offsets| == n && Ascending(offsets)
      invariant forall i :: 0 <= i < n ==> offsets[i] < request.offset
      invariant request == Request(workId, Dependencies, request.offset, MAX_WORK_DETAIL_LIMIT, None, None)
      invariant n == 0 ==> request.offset == 0 && collected == []
      invariant Honest(w, net) && n > 0 ==> WalkedDependencies(w, k0, request, revision, collected)
      invariant Quiet(w, net, k0) && SeenAt(w, k0, workId, revision) && n > 0 ==>
                  request.offset == n * MAX_WORK_DETAIL_LIMIT < |ItemOf(w, k0).value.dependencies|
    {
      var reply := net(k, request);
      if Quiet(w, net, k0) && SeenAt(w, k0, workId, revision) {
        QuietDependencyStep(w, net, k0, k, request, revision, collected);
      }
      if Honest(w, net) && reply.Ok? {
        DependencyStep(w, net, k0, k, request, revision, collected);
      }
      k, offsets := k + 1, offsets + [request.offset];
      if reply.Err? {
        return Err(reply.error), k, offsets;
      }
      match Judge(reply.value, request, revision, false, collected)
      case Refuse(error) => return Err(error), k, offsets;
      case Finish(items) => return Ok(items), k, offsets;
      case Continue(items, next) => collected, request := items, next;
    }
    r := Err("work detail page walk did not finish");
  }

  /** Positions before `offset` of a result, then those up to `end`. */
  lemma SpansJoin(s: seq<Elem>, lo: int, hi: int)
    requires lo <= hi
    ensures s[..Clamp(lo, |s|)] + Span(s, lo, hi) == s[..Clamp(hi, |s|)]
  {
  }

  /** The next result page extends what the walk has, from the item the first call saw. */
  lemma OutcomeStep(w: World, net: Transport, k0: nat, k: nat, r: Request, p: Page, evidence: seq<Elem>, artifacts: seq<Elem>)
    requires Honest(w, net) && net(k, r) == Ok(p) && r.section.Outcome?
    requires || (k == k0 && r.offset == 0 && evidence == [] && artifacts == [])
             || (SeenAt(w, k0, r.workId, p.revision) && ResultPrefix(ItemOf(w, k0).value.result, r.offset, evidence, artifacts))
    ensures SeenAt(w, k0, r.workId, p.revision)
    ensures var item := ItemOf(w, k0).value;
            && MetaIn(p.body) == MetaOf(item.result)
            && (p.complete ==>
                  && evidence + EvidenceIn(p.body) == EvidenceOf(item.result)
                  && artifacts + ArtifactsIn(p.body) == ArtifactsOf(item.result))
            && (!p.complete && p.nextOffset.Some? ==>
                  ResultPrefix(item.result, p.nextOffset.value, evidence + EvidenceIn(p.body), artifacts + ArtifactsIn(p.body)))
  {
    hide Reply, NoCollisions, Ordered, Recorded, Total, PageOf, ResultPrefix, MetaIn, EvidenceIn, ArtifactsIn;
    OutcomePage(w, k, r, p);
    if k != k0 { SameItem(w, k0, k, r.workId, p.revision); }
    ResultPageJoins(ItemOf(w, k0).value, p, r.offset, evidence, artifacts);
  }

  /** What a walk over a result has: the first page's metadata, and the spans so far. */
  datatype Gathered = Gathered(meta: Option<MetaJson>, evidence: seq<Elem>, artifacts: seq<Elem>)

  datatype ResultVerdict = Stop(error: string) | Done(all: Gathered) | Next(sofar: Gathered, offset: nat)

  /** The checks of `collect_detail_result` on one page. */
  function JudgeResult(page: Page, r: Request, revision: nat, g: Gathered): (v: ResultVerdict)
    ensures v.Next? ==> v.offset > r.offset && v.sofar.meta.Some?
    ensures v.Done? ==> v.all.meta.Some?
  {
    var meta := MetaIn(page.body);
    var more := Gathered(if g.meta.None? then Some(meta) else g.meta,
                         g.evidence + EvidenceIn(page.body), g.artifacts + ArtifactsIn(page.body));
    if page.workId != r.workId || page.revision != revision then Stop("work detail revision changed during the read")
    else if g.meta.Some? && (meta.summary != g.meta.value.summary || meta.completedAt != g.meta.value.completedAt) then
      Stop("work detail result metadata changed during the read")
    else if page.complete then Done(more)
    else if EvidenceIn(page.body) == [] && ArtifactsIn(page.body) == [] then Stop("work detail page did not include data")
    else if page.nextOffset.None? || page.nextOffset.value <= r.offset then Stop("work detail page did not advance")
    else Next(more, page.nextOffset.value)
  }

  /** A result page is taken on the same terms, and only with the summary and completion time of the first. */
  lemma JudgeResultTakesExactly(page: Page, r: Request, revision: nat, g: Gathered)
    ensures var v, meta := JudgeResult(page, r, revision, g), MetaIn(page.body);
            var fits := && page.workId == r.workId && page.revision == revision
                        && (g.meta.Some? ==> meta.summary == g.meta.value.summary && meta.completedAt == g.meta.value.completedAt);
            && (v.Done? <==> fits && page.complete)
            && (v.Next? <==> && fits && !page.complete && (EvidenceIn(page.body) != [] || ArtifactsIn(page.body) != [])
                             && page.nextOffset.Some? && page.nextOffset.value > r.offset)
  {
  }

  /** What a walk over the result that started with call k0 has gathered up to an offset. */
  ghost predicate WalkedResult(w: World, k0: nat, workId: string, revision: nat, offset: nat, g: Gathered) {
    && SeenAt(w, k0, workId, revision)
    && g.meta == Some(MetaOf(ItemOf(w, k0).value.result))
    && ResultPrefix(ItemOf(w, k0).value.result, offset, g.evidence, g.artifacts)
  }

  lemma ResultStep(w: World, net: Transport, k0: nat, k: nat, r: Request, revision: nat, g: Gathered)
    requires Honest(w, net) && net(k, r).Ok? && r.section.Outcome?
    requires (k == k0 && r.offset == 0 && g == Gathered(None, [], [])) || WalkedResult(w, k0, r.workId, revision, r.offset, g)
    ensures var v := JudgeResult(net(k, r).value, r, revision, g);
            && (v.Done? ==>
                  && SeenAt(w, k0, r.workId, revision)
                  && var result := ItemOf(w, k0).value.result;
                     v.all == Gathered(Some(MetaOf(result)), EvidenceOf(result), ArtifactsOf(result)))
            && (v.Next? ==> WalkedResult(w, k0, r.workId, revision, v.offset, v.sofar))
  {
    hide Honest, SeenAt, ResultPrefix, MetaIn, EvidenceIn, ArtifactsIn, MetaOf, EvidenceOf, ArtifactsOf;
    var p := net(k, r).value;
    if p.workId == r.workId && p.revision == revision { OutcomeStep(w, net, k0, k, r, p, g.evidence, g.artifacts); }
  }

  lemma QuietResultStep(w: World, net: Transport, k0: nat, k: nat, r: Request, revision: nat, g: Gathered)
    requires Quiet(w, net, k0) && k0 <= k && SeenAt(w, k0, r.workId, revision)
    requires r == Request(r.workId, Outcome, r.offset, MAX_WORK_DETAIL_LIMIT, None, None)
    requires r.offset <= Total(Results(ItemOf(w, k0).value))
    requires g.meta.Some? ==> g.meta.value == MetaOf(ItemOf(w, k0).value.result)
    ensures net(k, r).Ok?
    ensures var v := JudgeResult(net(k, r).value, r, revision, g);
            && !v.Stop?
            && (v.Done? <==> Total(Results(ItemOf(w, k0).value)) <= r.offset + MAX_WORK_DETAIL_LIMIT)
            && (v.Next? ==> v.offset == r.offset + MAX_WORK_DETAIL_LIMIT
                            && v.sofar.meta == Some(MetaOf(ItemOf(w, k0).value.result)))
  {
    hide Reply, Total, MetaIn, EvidenceIn, ArtifactsIn, MetaOf;
    QuietOutcomePage(w, k, r);
  }

  /** `collect_detail_result`: metadata, evidence and artifacts of one and the same item. */
  method CollectDetailResult(net: Transport, workId: string, revision: nat, k0: nat, ghost w: World)
    returns (r: Result<(MetaJson, seq<Elem>, seq<Elem>)>, k: nat, offsets: seq<nat>)
    ensures k == k0 + |offsets| && |offsets| <= MAX_PAGES && Ascending(offsets)
    ensures r.Ok? ==> k0 < k
    ensures Honest(w, net) && r.Ok? ==>
              && SeenAt(w, k0, workId, revision)
              && var result := ItemOf(w, k0).value.result;
                 r.value == (MetaOf(result), EvidenceOf(result), ArtifactsOf(result))
    ensures Quiet(w, net, k0) && SeenAt(w, k0, workId, revision) ==>
              (r.Ok? <==> Total(Results(ItemOf(w, k0).value)) <= MAX_PAGES * MAX_WORK_DETAIL_LIMIT)
  {
    hide Honest, Quiet, SeenAt, Total, MetaOf, EvidenceOf, ArtifactsOf, WalkedResult, JudgeResult;
    var offset: nat, g := 0, Gathered(None, [], []);
    k, offsets := k0, [];
    ghost var calm := Quiet(w, net, k0) && SeenAt(w, k0, workId, revision);
    if calm { SeenIsSome(w, k0, workId, revision); }
    for n := 0 to MAX_PAGES
      invariant k == k0 + n && |offsets| == n && Ascending(offsets)
      invariant forall i :: 0 <= i < n ==> offsets[i] < offset
      invariant n == 0 ==> offset == 0 && g == Gathered(None, [], [])
      invariant Honest(w, net) && n > 0 ==> WalkedResult(w, k0, workId, revision, offset, g)
      invariant calm && n > 0 ==>
                  && offset == n * MAX_WORK_DETAIL_LIMIT < Total(Results(ItemOf(w, k0).value))
                  && g.meta == Some(MetaOf(ItemOf(w, k0).value.result))
    {
      var request := Request(workId, Outcome, offset, MAX_WORK_DETAIL_LIMIT, None, None);
      var reply := net(k, request);
      if calm { QuietResultStep(w, net, k0, k, request, revision, g); }
      if Honest(w, net) && reply.Ok? { ResultStep(w, net, k0, k, request, revision, g); }
      k, offsets := k + 1, offsets + [offset];
      if reply.Err? {
        return Err(reply.error), k, offsets;
      }
      match JudgeResult(reply.value, request, revision, g)
      case Stop(error) => return Err(error), k, offsets;
      case Done(all) => return Ok((all.meta.value, all.evidence, all.artifacts)), k, offsets;
      case Next(sofar, next) => g, offset := sofar, next;
    }
    r := Err("work detail page walk did not finish");
  }

  lemma SeenIsSome(w: World, k: nat, workId: string, revision: nat)
    requires SeenAt(w, k, workId, revision)
    ensures ItemOf(w, k).Some?
  {
  }

  /** The first `offset` positions of a result, evidence before artifacts. */
  predicate ResultPrefix(result: Option<WorkResult>, offset: nat, evidence: seq<Elem>, artifacts: seq<Elem>) {
    var e, a := EvidenceOf(result), ArtifactsOf(result);
    && offset <= |e| + |a|
    && evidence == e[..Clamp(offset, |e|)]
    && artifacts == a[..Clamp(offset - |e|, |a|)]
  }

  /** An honest result page extends a prefix of the result by the positions it covers. */
  lemma ResultPageJoins(item: WorkItem, p: Page, offset: nat, evidence: seq<Elem>, artifacts: seq<Elem>)
    requires Advances(p, offset, Total(Results(item)))
    requires p.body == PageOf(Results(item), offset, PageEnd(p, Total(Results(item)))).body
    requires ResultPrefix(item.result, offset, evidence, artifacts)
          || (offset == 0 && evidence == [] && artifacts == [])
    ensures MetaIn(p.body) == MetaOf(item.result)
    ensures ResultPrefix(item.result, PageEnd(p, Total(Results(item))),
                         evidence + EvidenceIn(p.body), artifacts + ArtifactsIn(p.body))
    ensures p.complete ==>
              && evidence + EvidenceIn(p.body) == EvidenceOf(item.result)
              && artifacts + ArtifactsIn(p.body) == ArtifactsOf(item.result)
  {
    var e, a, end := EvidenceOf(item.result), ArtifactsOf(item.result), PageEnd(p, Total(Results(item)));
    SpansJoin(e, offset, end);
    SpansJoin(a, offset - |e|, end - |e|);
  }

  /** What a fenced walk that started with call k0 has gathered. */
  ghost predicate Walked(w: World, k0: nat, r: Request, revision: nat, collected: seq<Elem>) {
    && SeenAt(w, k0, r.workId, revision)
    && SourceAt(w, k0, r.section, r.attemptId).Some?
    && var src := SourceAt(w, k0, r.section, r.attemptId).value;
       r.fence == Some(src.fence) && r.offset <= |src.all| && collected == src.all[..r.offset]
  }

  /** The next page of a walk, under the walk's fence, continues the collection the first call saw. */
  lemma FencedStep(w: World, net: Transport, k0: nat, k: nat, r: Request, revision: nat, collected: seq<Elem>)
    requires Honest(w, net) && net(k, r).Ok? && Paged(r.section)
    requires (k == k0 && r.offset == 0 && collected == []) || Walked(w, k0, r, revision, collected)
    ensures var v := Judge(net(k, r).value, r, revision, true, collected);
            && (v.Finish? ==>
                  && SeenAt(w, k0, r.workId, revision)
                  && SourceAt(w, k0, r.section, r.attemptId).Some?
                  && v.items == SourceAt(w, k0, r.section, r.attemptId).value.all
                  && (r.fence.Some? ==> r.fence.value == SourceAt(w, k0, r.section, r.attemptId).value.fence))
            && (v.Continue? ==> Walked(w, k0, v.next, revision, v.items))
  {
    hide Reply, Lawful, SourceAt, Items;
    var p := net(k, r).value;
    FencedPage(w, k, r, p);
    if p.fence.Some? && (k == k0 || p.fence == r.fence) {
      if k != k0 { SameFenceSameCollection(w, k0, k, r.section, r.attemptId); }
      SliceJoins(SourceAt(w, k0, r.section, r.attemptId).value.all, p, r.offset, collected, Items(p.body, r.section));
    }
  }

  /** When nothing stands in the way, every page is accepted and is full. */
  lemma CalmStep(w: World, net: Transport, k0: nat, revision: nat, start: Request, k: nat, r: Request, collected: seq<Elem>)
    requires Calm(w, net, k0, revision, start) && k0 <= k
    requires start.offset == 0 && start.limit == MAX_WORK_DETAIL_LIMIT
    requires r == start || r == start.(offset := r.offset, fence := Some(FenceAt(w, k0, r.section, r.attemptId)))
    requires r.offset <= |CollectionAt(w, k0, r.section, r.attemptId)|
    ensures net(k, r).Ok?
    ensures var v := Judge(net(k, r).value, r, revision, true, collected);
            && !v.Refuse?
            && (v.Finish? <==> |CollectionAt(w, k0, r.section, r.attemptId)| <= r.offset + MAX_WORK_DETAIL_LIMIT)
            && (v.Continue? ==> v.next == start.(offset := r.offset + MAX_WORK_DETAIL_LIMIT,
                                                 fence := Some(FenceAt(w, k0, r.section, r.attemptId))))
  {
    CalmReply(w, net, k0, revision, start, k, r);
    hide Reply, Items, Calm, FenceAt, CollectionAt;
  }

  /**
   * `collect_fenced_array`: the attempt list, or the evidence or artifacts of one attempt. A
   * success against an honest service is the whole collection as the first call saw it, under the
   * fence the caller presented; when nothing stands in the way it succeeds exactly up to 65536
   * elements.
   */
  method CollectFencedArray(
    net: Transport, workId: string, section: Section, revision: nat,
    attemptId: Option<string>, fence: Option<string>, k0: nat, ghost w: World)
    returns (r: Result<seq<Elem>>, k: nat, offsets: seq<nat>)
    requires Paged(section)
    ensures k == k0 + |offsets| && |offsets| <= MAX_PAGES && Ascending(offsets)
    ensures r.Ok? ==> k0 < k
    ensures Honest(w, net) && r.Ok? ==>
              && SeenAt(w, k0, workId, revision)
              && SourceAt(w, k0, section, attemptId).Some?
              && r.value == SourceAt(w, k0, section, attemptId).value.all
              && (fence.Some? ==> SourceAt(w, k0, section, attemptId).value.fence == fence.value)
    ensures Calm(w, net, k0, revision, Request(workId, section, 0, MAX_WORK_DETAIL_LIMIT, attemptId, fence)) ==>
              (r.Ok? <==> |CollectionAt(w, k0, section, attemptId)| <= MAX_PAGES * MAX_WORK_DETAIL_LIMIT)
  {
    hide SourceAt, SeenAt, Walked, Calm, CollectionAt, FenceAt, Honest, Judge;
    var request, collected := Request(workId, section, 0, MAX_WORK_DETAIL_LIMIT, attemptId, fence), [];
    ghost var start := request;
    k, offsets := k0, [];
    for n := 0 to MAX_PAGES
      invariant k == k0 + n && |offsets| == n && Ascending(offsets)
      invariant forall i :: 0 <= i < n ==> offsets[i] < request.offset
      invariant n == 0 ==> request == start && collected == []
      invariant request == start.(offset := request.offset, fence := request.fence)
      invariant fence.Some? ==> request.fence == fence
      invariant Honest(w, net) && n > 0 ==> Walked(w, k0, request, revision, collected)
      invariant Calm(w, net, k0, revision, start) && n > 0 ==>
                  && request.fence == Some(FenceAt(w, k0, section, attemptId))
                  && request.offset == n * MAX_WORK_DETAIL_LIMIT < |CollectionAt(w, k0, section, attemptId)|
    {
      var reply := net(k, request);
      if Calm(w, net, k0, revision, start) {
        CalmStep(w, net, k0, revision, start, k, request, collected);
      }
      if Honest(w, net) && reply.Ok? {
        FencedStep(w, net, k0, k, request, revision, collected);
      }
      k, offsets := k + 1, offsets + [request.offset];
      if reply.Err? {
        return Err(reply.error), k, offsets;
      }
      match Judge(reply.value, request, revision, true, collected)
      case Refuse(error) => return Err(error), k, offsets;
      case Finish(items) => return Ok(items), k, offsets;
      case Continue(items, next) => collected, request := items, next;
    }
    r := Err("work detail page walk did not finish");
  }
}

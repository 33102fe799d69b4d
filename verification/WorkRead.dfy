/**
 * The desktop's read of one work item through detail pages. The service may change between any
 * two page reads, and between loading the item and loading its attempts within one page read.
 */
module WorkRead {

  import opened Wrappers
  import opened WorkPages
  import opened WorkWorld
  import opened WorkWalks

  // ----------------------------------------------------------------- attempts

  /** `assemble_attempt_view`. */
  function AssembleAttemptView(body: Body, evidence: seq<Elem>, artifacts: seq<Elem>): Result<AttemptView> {
    if !body.AttemptBody? then Err("attempt detail omitted the attempt")
    else
      var a := body.attempt;
      var evidenceCount := if a.result.None? then 0 else a.result.value.evidenceCount;
      var artifactCount := if a.result.None? then 0 else a.result.value.artifactCount;
      if |evidence| != evidenceCount || |artifacts| != artifactCount then
        Err("attempt detail collections did not match the summary counts")
      else if a.attemptId.None? then Err("decode remote attempt detail")
      else
        var result := if a.result.None? then None else Some(WorkResult(a.result.value.meta, evidence, artifacts));
        Ok(AttemptView(a.attemptId.value, a.workId, a.scalars, result))
  }

  /** Assembling a summary with its collections gives back the attempt it was taken from, and nothing else fits. */
  lemma AttemptRoundTrip(v: Service, a: AttemptView, evidence: seq<Elem>, artifacts: seq<Elem>)
    ensures AssembleAttemptView(AttemptBody(SummaryOf(v, a)), EvidenceOf(a.result), ArtifactsOf(a.result)) == Ok(a)
    ensures AssembleAttemptView(AttemptBody(SummaryOf(v, a)), evidence, artifacts) == Ok(a)
        ==> evidence == EvidenceOf(a.result) && artifacts == ArtifactsOf(a.result)
  {
  }

  lemma DetailPage(w: World, net: Transport, k: nat, r: Request, p: Page)
    requires Honest(w, net) && net(k, r) == Ok(p) && r.section.AttemptDetail? && r.attemptId.Some?
    ensures SeenAt(w, k, r.workId, p.revision)
    ensures exists a :: a in AttemptsOf(w, k) && p.body == AttemptBody(SummaryOf(w.service, a))
                     && p.fence == Some(w.service.attemptDigest(a))
  {
    assert Reply(w, k, r) == Ok(p);
    var a := FindAttempt(AttemptsOf(w, k), r.attemptId.value).value;
    assert p.body == AttemptBody(SummaryOf(w.service, a));
  }

  /** A nested collection under the fence of a known attempt is that attempt's. */
  lemma NestedCollection(w: World, net: Transport, k: nat, section: Section, id: string, a: AttemptView, list: nat)
    requires Honest(w, net) && a in AttemptsOf(w, list) && (section.AttemptEvidence? || section.AttemptArtifacts?)
    requires SourceAt(w, k, section, Some(id)).Some?
    requires SourceAt(w, k, section, Some(id)).value.fence == w.service.attemptDigest(a)
    ensures SourceAt(w, k, section, Some(id)).value.all
         == if section.AttemptEvidence? then EvidenceOf(a.result) else ArtifactsOf(a.result)
  {
  }

  /** One attempt can be read in full: the service finds it, and its collections fit a walk. */
  predicate Readable(w: World, k: nat, workId: string, a: AttemptView) {
    && FindAttempt(AttemptsOf(w, k), a.attemptId) == Some(a)
    && ValidAttemptId(a.attemptId) && a.workId == workId
    && |EvidenceOf(a.result)| <= MAX_PAGES * MAX_WORK_DETAIL_LIMIT
    && |ArtifactsOf(a.result)| <= MAX_PAGES * MAX_WORK_DETAIL_LIMIT
  }

  lemma CalmDetail(w: World, net: Transport, k: nat, revision: nat, a: AttemptView, r: Request)
    requires Honest(w, net) && Quiet(w, net, k) && SeenAt(w, k, r.workId, revision) && Readable(w, k, r.workId, a)
    requires r == Request(r.workId, AttemptDetail, 0, 1, Some(a.attemptId), Some(w.service.attemptDigest(a)))
    ensures net(k, r) == Ok(Page(r.workId, revision, AttemptDetail, 0, true, None,
                                 AttemptBody(SummaryOf(w.service, a)), r.attemptId, r.fence))
  {
    assert IsFence(w.service.attemptDigest(a));
    assert net(k, r) == Reply(w, k, r);
  }

  lemma CalmLater(w: World, net: Transport, k0: nat, k: nat, revision: nat, a: AttemptView, section: Section, r: Request)
    requires Honest(w, net) && Quiet(w, net, k0) && SeenAt(w, k0, r.workId, revision) && Readable(w, k0, r.workId, a)
    requires k0 <= k && (section.AttemptEvidence? || section.AttemptArtifacts?)
    requires r.attemptId == Some(a.attemptId) && r.fence == Some(w.service.attemptDigest(a))
    ensures Calm(w, net, k, revision, Request(r.workId, section, 0, MAX_WORK_DETAIL_LIMIT, r.attemptId, r.fence))
    ensures |CollectionAt(w, k, section, r.attemptId)| <= MAX_PAGES * MAX_WORK_DETAIL_LIMIT
  {
  }

  /** One attempt: its detail, its evidence and its artifacts, under the fence of its summary. */
  method CollectAttemptView(net: Transport, workId: string, revision: nat, summary: AttemptSummary, k0: nat,
                            ghost w: World, ghost list: nat, ghost a: AttemptView)
    returns (r: Result<AttemptView>, k: nat)
    ensures k0 <= k
    ensures r.Ok? ==> k0 < k
    ensures Honest(w, net) && a in AttemptsOf(w, list) && summary == SummaryOf(w.service, a) && r.Ok? ==>
              r.value == a && SeenAt(w, k0, workId, revision)
    ensures (Honest(w, net) && Quiet(w, net, k0) && SeenAt(w, k0, workId, revision)
             && a in AttemptsOf(w, list) && summary == SummaryOf(w.service, a) && Readable(w, k0, workId, a)) ==> r.Ok?
  {
    hide Reply, Honest, Quiet, SourceAt, SeenAt, Calm, CollectionAt, EvidenceOf, ArtifactsOf, Readable;
    k := k0;
    ghost var calm := Honest(w, net) && Quiet(w, net, k0) && SeenAt(w, k0, workId, revision)
                      && summary == SummaryOf(w.service, a) && Readable(w, k0, workId, a);
    if summary.attemptId.None? {
      return Err("attempt summary omitted its id"), k;
    }
    if summary.fence.None? {
      return Err("attempt summary omitted its consistency fence"), k;
    }
    var request := Request(workId, AttemptDetail, 0, 1, summary.attemptId, summary.fence);
    var reply := net(k, request);
    if calm {
      CalmDetail(w, net, k, revision, a, request);
    }
    k := k + 1;
    if reply.Err? {
      return Err(reply.error), k;
    }
    var detail := reply.value;
    if detail.workId != workId || detail.revision != revision || detail.attemptId != summary.attemptId
       || detail.fence != summary.fence || !detail.complete {
      return Err("attempt detail fence changed during the read"), k;
    }
    var evidence, artifacts, offsets;
    ghost var k1 := k;
    if calm {
      CalmLater(w, net, k0, k1, revision, a, AttemptEvidence, request);
    }
    evidence, k, offsets := CollectFencedArray(net, workId, AttemptEvidence, revision, summary.attemptId, summary.fence, k, w);
    if evidence.Err? {
      return Err(evidence.error), k;
    }
    ghost var k2 := k;
    if calm {
      CalmLater(w, net, k0, k2, revision, a, AttemptArtifacts, request);
    }
    artifacts, k, offsets := CollectFencedArray(net, workId, AttemptArtifacts, revision, summary.attemptId, summary.fence, k, w);
    if artifacts.Err? {
      return Err(artifacts.error), k;
    }
    r := AssembleAttemptView(detail.body, evidence.value, artifacts.value);
    if Honest(w, net) && a in AttemptsOf(w, list) && summary == SummaryOf(w.service, a) {
      DetailPage(w, net, k0, request, detail);
      DigestDetermines(w, net, k0, detail.body, list, a);
      NestedCollection(w, net, k1, AttemptEvidence, a.attemptId, a, list);
      NestedCollection(w, net, k2, AttemptArtifacts, a.attemptId, a, list);
      AttemptRoundTrip(w.service, a, evidence.value, artifacts.value);
    }
  }

  lemma DigestDetermines(w: World, net: Transport, k: nat, body: Body, list: nat, a: AttemptView)
    requires Honest(w, net) && a in AttemptsOf(w, list)
    requires exists b :: b in AttemptsOf(w, k) && body == AttemptBody(SummaryOf(w.service, b))
                      && w.service.attemptDigest(b) == w.service.attemptDigest(a)
    ensures body == AttemptBody(SummaryOf(w.service, a))
  {
  }

  /** The whole item can be read: every collection fits a walk and every attempt can be read. */
  predicate ReadableItem(w: World, k: nat, workId: string) {
    FitsWalks(w, k) && ItemOf(w, k).value.workId == workId
    && (forall a :: a in AttemptsOf(w, k) ==> Readable(w, k, workId, a))
  }

  predicate FitsWalks(w: World, k: nat) {
    && ItemOf(w, k).Some?
    && |ItemOf(w, k).value.dependencies| <= MAX_PAGES * MAX_WORK_DETAIL_LIMIT
    && Total(Results(ItemOf(w, k).value)) <= MAX_PAGES * MAX_WORK_DETAIL_LIMIT
    && |AttemptsOf(w, k)| <= MAX_PAGES * MAX_WORK_DETAIL_LIMIT
  }

  lemma CalmList(w: World, net: Transport, k: nat, revision: nat, r: Request)
    requires Honest(w, net) && Quiet(w, net, k) && SeenAt(w, k, r.workId, revision) && ReadableItem(w, k, r.workId)
    requires r == Request(r.workId, Attempts, 0, MAX_WORK_DETAIL_LIMIT, None, None)
    ensures Calm(w, net, k, revision, r)
    ensures |CollectionAt(w, k, Attempts, None)| <= MAX_PAGES * MAX_WORK_DETAIL_LIMIT
  {
  }

  lemma ReadableLater(w: World, net: Transport, k0: nat, k: nat, workId: string, revision: nat)
    requires Quiet(w, net, k0) && k0 <= k && SeenAt(w, k0, workId, revision) && ReadableItem(w, k0, workId)
    ensures Quiet(w, net, k) && SeenAt(w, k, workId, revision) && ReadableItem(w, k, workId)
    ensures forall a :: a in AttemptsOf(w, k0) ==> Readable(w, k, workId, a)
  {
  }

  /**
   * `collect_attempt_views`: although the pages are read at different times, a success is exactly
   * the attempts as the first list page saw them, and when there are any, the item was loaded
   * again afterwards at the same revision.
   */
  method CollectAttemptViews(net: Transport, workId: string, revision: nat, k0: nat, ghost w: World)
    returns (r: Result<seq<AttemptView>>, k: nat)
    ensures k0 <= k
    ensures r.Ok? ==> k0 < k
    ensures Honest(w, net) && r.Ok? ==>
              && SeenAt(w, k0, workId, revision)
              && r.value == AttemptsOf(w, k0)
              && (r.value != [] ==> exists j :: k0 < j < k && SeenAt(w, j, workId, revision))
    ensures (Honest(w, net) && Quiet(w, net, k0) && SeenAt(w, k0, workId, revision) && ReadableItem(w, k0, workId))
              ==> r.Ok?
  {
    hide Reply, Honest, Quiet, SeenAt, ReadableItem, Readable, Calm, CollectionAt;
    var summaries, offsets;
    ghost var calm := Honest(w, net) && Quiet(w, net, k0) && SeenAt(w, k0, workId, revision) && ReadableItem(w, k0, workId);
    if calm {
      CalmList(w, net, k0, revision, Request(workId, Attempts, 0, MAX_WORK_DETAIL_LIMIT, None, None));
    }
    summaries, k, offsets := CollectFencedArray(net, workId, Attempts, revision, None, None, k0, w);
    if summaries.Err? {
      return Err(summaries.error), k;
    }
    var views := [];
    ghost var attempts := AttemptsOf(w, k0);
    for i := 0 to |summaries.value|
      invariant k0 < k && |views| == i
      invariant Honest(w, net) ==> i <= |attempts| && views == attempts[..i]
      invariant Honest(w, net) && i > 0 ==> exists j :: k0 < j < k && SeenAt(w, j, workId, revision)
    {
      var summary := summaries.value[i];
      if !summary.Attempt? {
        return Err("attempt summary omitted its id"), k;
      }
      var view;
      ghost var j := k;
      ghost var a := if i < |attempts| then attempts[i] else AttemptView("", "", "", None);
      if calm {
        ReadableLater(w, net, k0, k, workId, revision);
      }
      view, k := CollectAttemptView(net, workId, revision, summary.summary, k, w, k0, a);
      if view.Err? {
        return Err(view.error), k;
      }
      if Honest(w, net) {
        assert summary == Attempt(SummaryOf(w.service, a));
        assert SeenAt(w, j, workId, revision);
      }
      views := views + [view.value];
    }
    r := Ok(views);
  }

  // ----------------------------------------------------------------- the item

  /** `assemble_detail_result`, and the decoding of its value. */
  function AssembleDetailResult(meta: MetaJson, evidence: seq<Elem>, artifacts: seq<Elem>): Result<Option<WorkResult>> {
    if meta.completedAt.None? then
      if meta.summary.None? && evidence == [] && artifacts == [] then Ok(None)
      else Err("work detail result omitted its completion time")
    else if meta.summary.None? then Err("decode remote work detail snapshot")
    else
      Ok(Some(WorkResult(
        ResultMeta(meta.summary.value, meta.completedAt.value, meta.failure, meta.cancellationReason,
                   meta.verification, meta.candidateVerification),
        evidence, artifacts)))
  }

  lemma ResultRoundTrip(result: Option<WorkResult>)
    ensures AssembleDetailResult(MetaOf(result), EvidenceOf(result), ArtifactsOf(result)) == Ok(result)
  {
  }

  /** A result is put together exactly from complete metadata, and no result exactly from nothing; no element is dropped. */
  lemma ResultAssemblesExactly(meta: MetaJson, evidence: seq<Elem>, artifacts: seq<Elem>)
    ensures var r := AssembleDetailResult(meta, evidence, artifacts);
            && (r.Ok? && r.value.Some? <==> meta.summary.Some? && meta.completedAt.Some?)
            && (r == Ok(None) <==> meta.summary.None? && meta.completedAt.None? && evidence == [] && artifacts == [])
            && (r.Ok? ==> EvidenceOf(r.value) == evidence && ArtifactsOf(r.value) == artifacts)
            && (r.Ok? && r.value.Some? ==> MetaOf(r.value) == meta)
  {
  }

  datatype Snapshot = Snapshot(work: WorkItem, attempts: seq<AttemptView>)

  lemma ScalarSection(w: World, k: nat, r: Request, p: Page)
    requires Reply(w, k, r) == Ok(p)
    requires r.section.Summary? || r.section.Objective? || r.section.Progress? || r.section.Policy?
    ensures SeenAt(w, k, r.workId, p.revision)
    ensures var item := ItemOf(w, k).value;
            && (r.section.Summary? ==> p.body == SummaryBody(item.workId, item.identity, item.revision))
            && (r.section.Objective? ==> p.body == ObjectiveBody(item.objective))
            && (r.section.Progress? ==> p.body == ProgressBody(item.progress))
            && (r.section.Policy? ==> p.body == PolicyBody(item.policy))
  {
  }

  lemma ScalarAnswered(w: World, k: nat, r: Request)
    requires forall p: Page :: w.service.fits(p)
    requires ReadableItem(w, k, r.workId) && r == Request(r.workId, r.section, 0, 1, None, None)
    requires r.section.Summary? || r.section.Objective? || r.section.Progress? || r.section.Policy?
    ensures Reply(w, k, r).Ok? && Reply(w, k, r).value.workId == r.workId && Reply(w, k, r).value.complete
  {
  }

  /** `read_complete_detail`. */
  method ReadCompleteDetail(net: Transport, workId: string, section: Section, k0: nat, ghost w: World)
    returns (r: Result<Page>, k: nat)
    requires section.Summary? || section.Objective? || section.Progress? || section.Policy?
    ensures k == k0 + 1
    ensures r.Ok? ==> r.value.workId == workId && r.value.complete
    ensures Honest(w, net) && r.Ok? ==> SeenAt(w, k0, workId, r.value.revision)
    ensures Quiet(w, net, k0) && ReadableItem(w, k0, workId) ==> r.Ok?
    ensures Honest(w, net) && r.Ok? ==>
              var item, body := ItemOf(w, k0).value, r.value.body;
              && (section.Summary? ==> body == SummaryBody(item.workId, item.identity, item.revision))
              && (section.Objective? ==> body == ObjectiveBody(item.objective))
              && (section.Progress? ==> body == ProgressBody(item.progress))
              && (section.Policy? ==> body == PolicyBody(item.policy))
  {
    hide Reply, Lawful, Readable, FitsWalks;
    var request := Request(workId, section, 0, 1, None, None);
    r, k := net(k0, request), k0 + 1;
    if Quiet(w, net, k0) && ReadableItem(w, k0, workId) {
      ScalarAnswered(w, k0, request);
    }
    if r.Ok? && (r.value.workId != workId || !r.value.complete) {
      return Err("work detail section was not a complete page"), k;
    }
    if Honest(w, net) && r.Ok? {
      ScalarSection(w, k0, request, r.value);
    }
  }

  /** The store at one instant is the snapshot. */
  ghost predicate StoodAt(w: World, instant: nat, s: Snapshot) {
    w.hist(instant) == Moment(Some(s.work), s.attempts)
  }

  /**
   * Item and attempts were loaded at different instants; some instant between the first and the
   * last load had both.
   */
  lemma OneInstant(w: World, list: nat, s: Snapshot, end: nat)
    requires Lawful(w)
    requires SeenAt(w, list, s.work.workId, s.work.revision) && ItemOf(w, list).value == s.work
    requires s.attempts == AttemptsOf(w, list)
    requires s.attempts != [] ==>
               exists j :: list < j < end && SeenAt(w, j, s.work.workId, s.work.revision)
    ensures exists instant :: w.itemAt(list) <= instant <= w.attemptsAt(list) && StoodAt(w, instant, s)
  {
    var early, late := w.itemAt(list), w.attemptsAt(list);
    if s.attempts == [] {
      assert StoodAt(w, early, s);
    } else {
      var j :| list < j < end && SeenAt(w, j, s.work.workId, s.work.revision);
      LaterCall(w, list, j);
      assert w.hist(early).item.value.revision <= w.hist(late).item.value.revision <= w.hist(w.itemAt(j)).item.value.revision;
      assert StoodAt(w, late, s);
    }
  }

  /**
   * `read_work_through_detail`: a success is a real snapshot. Some instant between the first and
   * the last page read had exactly this item and exactly these attempts, whatever the service did
   * meanwhile.
   */
  method ReadWorkThroughDetail(net: Transport, workId: string, k0: nat, ghost w: World)
    returns (r: Result<Snapshot>, k: nat)
    ensures k0 < k
    ensures Honest(w, net) && r.Ok? ==>
              exists list, instant ::
                k0 <= list < k && w.itemAt(list) <= instant <= w.attemptsAt(list) && StoodAt(w, instant, r.value)
    ensures Honest(w, net) && Quiet(w, net, k0) && ReadableItem(w, k0, workId) ==> r.Ok?
  {
    hide Reply, Honest, Quiet, SeenAt, ReadableItem, StoodAt, FitsWalks, ItemOf, AttemptsOf;
    ghost var calm := Honest(w, net) && Quiet(w, net, k0) && ReadableItem(w, k0, workId);
    var summary, objective, progress, policy;
    summary, k := ReadCompleteDetail(net, workId, Summary, k0, w);
    if summary.Err? { return Err(summary.error), k; }
    var revision := summary.value.revision;
    if calm { CalmAt(w, net, k0, k, workId, revision); }
    objective, k := ReadCompleteDetail(net, workId, Objective, k, w);
    if objective.Err? { return Err(objective.error), k; }
    if calm { CalmAt(w, net, k0, k, workId, objective.value.revision); }
    progress, k := ReadCompleteDetail(net, workId, Progress, k, w);
    if progress.Err? { return Err(progress.error), k; }
    if calm { CalmAt(w, net, k0, k, workId, progress.value.revision); }
    policy, k := ReadCompleteDetail(net, workId, Policy, k, w);
    if policy.Err? { return Err(policy.error), k; }
    if calm { CalmAt(w, net, k0, k, workId, policy.value.revision); }
    if objective.value.revision != revision || progress.value.revision != revision || policy.value.revision != revision {
      return Err("work detail revision changed during the read"), k;
    }
    var dependencies, offsets, outcome, attempts;
    ghost var kDeps := k;
    dependencies, k, offsets := CollectDetailArray(net, workId, revision, k, w);
    if dependencies.Err? { return Err(dependencies.error), k; }
    ghost var kOutcome := k;
    if calm { CalmAt(w, net, k0, k, workId, revision); }
    outcome, k, offsets := CollectDetailResult(net, workId, revision, k, w);
    if outcome.Err? { return Err(outcome.error), k; }
    ghost var kList := k;
    if calm { CalmAt(w, net, k0, k, workId, revision); }
    attempts, k := CollectAttemptViews(net, workId, revision, k, w);
    if attempts.Err? { return Err(attempts.error), k; }
    if Honest(w, net) {
      Agree(w, net, kList, k0, workId, revision);
      Agree(w, net, kList, k0 + 1, workId, revision);
      Agree(w, net, kList, k0 + 2, workId, revision);
      Agree(w, net, kList, k0 + 3, workId, revision);
      Agree(w, net, kList, kDeps, workId, revision);
      Agree(w, net, kList, kOutcome, workId, revision);
      ResultRoundTrip(ItemOf(w, kList).value.result);
    }
    var result := AssembleDetailResult(outcome.value.0, outcome.value.1, outcome.value.2);
    if result.Err? { return Err(result.error), k; }
    var s, o, p, c := summary.value.body, objective.value.body, progress.value.body, policy.value.body;
    if !s.SummaryBody? || !o.ObjectiveBody? || !p.ProgressBody? || !c.PolicyBody? {
      return Err("decode remote work detail snapshot"), k;
    }
    var work := WorkItem(s.workId, s.revision, s.identity, o.objective, p.progress, c.policy,
                         dependencies.value, result.value);
    r := Ok(Snapshot(work, attempts.value));
    if Honest(w, net) {
      OneInstantOf(w, net, kList, r.value, k, workId, revision);
    }
  }

  /** In a quiet world the whole item stays readable, at the revision it was first seen at. */
  lemma CalmAt(w: World, net: Transport, k0: nat, k: nat, workId: string, revision: nat)
    requires Quiet(w, net, k0) && ReadableItem(w, k0, workId) && k0 <= k
    requires exists j :: k0 <= j && SeenAt(w, j, workId, revision)
    ensures Quiet(w, net, k) && ReadableItem(w, k, workId) && SeenAt(w, k, workId, revision)
    ensures ItemOf(w, k0).Some? && revision == ItemOf(w, k0).value.revision
    ensures FitsWalks(w, k)
  {
  }

  /** Two loads at one revision loaded the same item. */
  lemma Agree(w: World, net: Transport, j: nat, k: nat, workId: string, revision: nat)
    requires Honest(w, net) && SeenAt(w, j, workId, revision) && SeenAt(w, k, workId, revision)
    ensures ItemOf(w, j).Some? && ItemOf(w, j) == ItemOf(w, k)
  {
  }

  lemma OneInstantOf(w: World, net: Transport, list: nat, s: Snapshot, end: nat, workId: string, revision: nat)
    requires Honest(w, net) && SeenAt(w, list, workId, revision) && ItemOf(w, list).value == s.work
    requires s.attempts == AttemptsOf(w, list)
    requires s.attempts != [] ==> exists j :: list < j < end && SeenAt(w, j, workId, revision)
    ensures exists instant :: w.itemAt(list) <= instant <= w.attemptsAt(list) && StoodAt(w, instant, s)
  {
    OneInstant(w, list, s, end);
  }
}

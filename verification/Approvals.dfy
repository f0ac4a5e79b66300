/** Approval decisions: approve, revise (at most five times), reject, and the operator's regenerate.

    A decision that raises leaves the row as far as it got; undoing it is the caller's transaction. */
module Approvals {
  import opened Wrappers

  const MAX_REVISIONS := 5

  datatype Status = Pending | RevisionRequested | Approved | Rejected | Expired

  datatype Kind = Asset | Publish | Topic | Trending

  /** The workflow binding, when the payload carries one with a resume token. */
  datatype Binding = Binding(allowRevision: bool)

  datatype Request = Request(status: Status, revisions: nat, job: Option<nat>, kind: Kind, binding: Option<Binding>)

  /** One call of `publish_now`; `planned` says whether the payload's platforms and schedule go with it. */
  datatype Publication = Publication(job: nat, planned: bool)

  /** How re-sending a revised job ends: sent, or raising before or after the row is refreshed. */
  datatype Send = Sent | RaisesFirst | RaisesLater

  /** What the outside world answers: the regenerated job, unless regenerating raises, and the re-send. */
  datatype World = World(regenerated: Option<nat>, send: Send)

  datatype Decision =
    | Approve(publishRaises: bool)
    | Revise(feedback: string, world: World)
    | Reject
    | Unknown
    | Regenerate(world: World)
    | Unsupported

  /** The row with its history: the jobs regenerated for it, the publications, and the revisions whose
      regeneration raised. */
  datatype Case = Case(request: Request, chain: seq<nat>, published: seq<Publication>, lost: nat)

  // ---- One decision ----

  predicate RevisionBarred(r: Request) {
    (r.binding.Some? && !r.binding.value.allowRevision) || r.revisions >= MAX_REVISIONS
  }

  predicate Publishes(r: Request) {
    r.job.Some? && r.binding.None? && (r.kind == Asset || r.kind == Publish)
  }

  function Revised(c: Case, world: World): Case {
    var r := c.request;
    if RevisionBarred(r) then c.(request := r.(status := Rejected))
    else if r.job.None? then c.(request := r.(status := RevisionRequested, revisions := r.revisions + 1))
    else if world.regenerated.None? then
      c.(request := r.(status := RevisionRequested, revisions := r.revisions + 1), lost := c.lost + 1)
    else
      c.(request := r.(status := Pending, revisions := r.revisions + 1, job := world.regenerated,
                       kind := if world.send.RaisesFirst? then r.kind else Asset),
         chain := c.chain + [world.regenerated.value])
  }

  function After(c: Case, d: Decision): Case {
    var r := c.request;
    match d
    case Approve(publishRaises) =>
      c.(request := r.(status := Approved),
         published := c.published +
           if Publishes(r) && !publishRaises then [Publication(r.job.value, r.kind == Publish)] else [])
    case Revise(feedback, world) => if feedback == "" then c else Revised(c, world)
    case Reject => c.(request := r.(status := Rejected))
    case Regenerate(world) =>
      if r.job.None? || world.regenerated.None? then c
      else
        c.(request := r.(status := Pending, revisions := r.revisions + 1, job := world.regenerated),
           chain := c.chain + [world.regenerated.value])
    case _ => c
  }

  predicate Raises(c: Case, d: Decision) {
    match d
    case Approve(publishRaises) => Publishes(c.request) && publishRaises
    case Revise(feedback, world) =>
      feedback != "" && !RevisionBarred(c.request) && c.request.job.Some?
      && (world.regenerated.None? || !world.send.Sent?)
    case Regenerate(world) => c.request.job.None? || world.regenerated.None?
    case Unsupported => true
    case _ => false
  }

  function AfterAll(c: Case, ds: seq<Decision>): Case {
    if |ds| == 0 then c else After(AfterAll(c, ds[..|ds| - 1]), ds[|ds| - 1])
  }

  /** A fresh request. */
  function Fresh(job: Option<nat>, kind: Kind, binding: Option<Binding>): Case {
    Case(Request(Pending, 0, job, kind, binding), [], [], 0)
  }

  // ---- Runs ----

  function Regenerations(ds: seq<Decision>): nat {
    if |ds| == 0 then 0
    else Regenerations(ds[..|ds| - 1]) + if ds[|ds| - 1].Regenerate? then 1 else 0
  }

  /** The newest draft: the last regenerated job, or the job the request began with. */
  function Newest(first: nat, chain: seq<nat>): nat {
    if |chain| == 0 then first else chain[|chain| - 1]
  }

  /** Main result, for a content-backed request and any decisions: the revision count is the length of the
      chain of regenerated jobs plus the revisions whose regeneration raised, and the row points at the newest
      draft.  So the count is the chain's length exactly when no regeneration raised. */
  lemma {:induction false} CountIsChainLength(job: nat, kind: Kind, binding: Option<Binding>, ds: seq<Decision>)
    ensures var c := AfterAll(Fresh(Some(job), kind, binding), ds);
      && c.request.job == Some(Newest(job, c.chain))
      && c.request.revisions == |c.chain| + c.lost
      && (c.request.revisions == |c.chain| <==> c.lost == 0)
      && c.request.binding == binding
  {
    if |ds| > 0 { CountIsChainLength(job, kind, binding, ds[..|ds| - 1]); }
  }

  /** Only the operator's regenerate takes the count past five. */
  lemma {:induction false} RevisionsAreBounded(job: Option<nat>, kind: Kind, binding: Option<Binding>, ds: seq<Decision>)
    ensures AfterAll(Fresh(job, kind, binding), ds).request.revisions <= 5 + Regenerations(ds)
    ensures |AfterAll(Fresh(job, kind, binding), ds).chain| <= AfterAll(Fresh(job, kind, binding), ds).request.revisions
  {
    if |ds| > 0 { RevisionsAreBounded(job, kind, binding, ds[..|ds| - 1]); }
  }

  /** A revision with feedback rejects without regenerating exactly when it is barred: by the workflow, or
      because five were made. */
  lemma SixthRevisionRejects(job: nat, kind: Kind, binding: Option<Binding>, ds: seq<Decision>, feedback: string, world: World)
    requires feedback != ""
    ensures var c := AfterAll(Fresh(Some(job), kind, binding), ds);
      var after := After(c, Revise(feedback, world));
      var barred := (binding.Some? && !binding.value.allowRevision) || |c.chain| + c.lost >= 5;
      && (barred <==> after.request == c.request.(status := Rejected))
      && (barred ==> after.chain == c.chain && after.lost == c.lost)
      && (!barred ==> |after.chain| + after.lost == |c.chain| + c.lost + 1)
  {
    CountIsChainLength(job, kind, binding, ds);
  }

  /** A workflow that forbids revisions sees none but the operator's. */
  lemma {:induction false} ForbiddenRevisionsDoNothing(job: Option<nat>, kind: Kind, ds: seq<Decision>)
    ensures var c := AfterAll(Fresh(job, kind, Some(Binding(false))), ds);
      c.request.revisions == |c.chain| <= Regenerations(ds) && c.lost == 0 && c.published == []
      && c.request.binding == Some(Binding(false))
  {
    if |ds| > 0 { ForbiddenRevisionsDoNothing(job, kind, ds[..|ds| - 1]); }
  }

  /** Where each decision leaves the row: approved, rejected, waiting again with one more revision on it, or as it
      was. */
  lemma StatusAfter(c: Case, d: Decision)
    ensures var before, after := c.request, After(c, d).request;
      var barred := (before.binding.Some? && !before.binding.value.allowRevision) || before.revisions >= 5;
      match d
      case Approve(_) => after == before.(status := Approved)
      case Reject => after == before.(status := Rejected)
      case Revise(feedback, world) =>
        if feedback == "" then after == before
        else if barred then after == before.(status := Rejected)
        else
          && after.revisions == before.revisions + 1 && after.binding == before.binding
          && (before.job != None && world.regenerated != None ==>
                after.status == Pending && after.job == world.regenerated
                && after.kind == if world.send == RaisesFirst then before.kind else Asset)
          && (before.job == None || world.regenerated == None ==>
                after.status == RevisionRequested && after.job == before.job && after.kind == before.kind)
      case Regenerate(world) =>
        if before.job == None || world.regenerated == None then after == before
        else after == before.(status := Pending, revisions := before.revisions + 1, job := world.regenerated)
      case Unknown => after == before
      case Unsupported => after == before
  {}

  /** What the caller sees raised: a publication or a regeneration that raises, a re-send that does, an operator's
      request that has no draft or names no action; barred and empty revisions never raise. */
  lemma RaisesExactlyWhen(c: Case, d: Decision)
    ensures var r := c.request;
      Raises(c, d) <==>
        match d
        case Approve(raises) => raises && r.job != None && r.binding == None && r.kind in {Asset, Publish}
        case Revise(feedback, world) =>
          && |feedback| > 0 && After(c, d).request.status != Rejected && r.job != None
          && (world.regenerated == None || world.send != Sent)
        case Regenerate(world) => r.job == None || world.regenerated == None
        case d => d == Unsupported
  {}

  // ---- Publishing ----

  /** The approvals whose publication goes through. */
  function Approvals(ds: seq<Decision>): nat {
    if |ds| == 0 then 0
    else Approvals(ds[..|ds| - 1]) + if ds[|ds| - 1] == Approve(false) then 1 else 0
  }

  /** An unbound asset or publish request publishes at every approval that does not raise, each time the newest
      draft of that moment; nothing else publishes. */
  lemma {:induction false} EachApprovalPublishesNewest(job: nat, kind: Kind, ds: seq<Decision>)
    requires kind == Asset || kind == Publish
    ensures var c := AfterAll(Fresh(Some(job), kind, None), ds);
      && |c.published| == Approvals(ds)
      && (c.request.kind == Asset || c.request.kind == Publish)
      && forall p :: p in c.published ==> p.job == job || p.job in c.chain
    ensures |ds| > 0 && ds[|ds| - 1] == Approve(false) ==>
      var before := AfterAll(Fresh(Some(job), kind, None), ds[..|ds| - 1]);
      var c := AfterAll(Fresh(Some(job), kind, None), ds);
      c.published == before.published + [Publication(Newest(job, before.chain), before.request.kind == Publish)]
  {
    if |ds| > 0 {
      EachApprovalPublishesNewest(job, kind, ds[..|ds| - 1]);
      CountIsChainLength(job, kind, None, ds[..|ds| - 1]);
    }
  }

  /** A request of a workflow, or one without a draft, publishes nothing here, whatever is decided. */
  lemma {:induction false} OthersPublishNothing(job: Option<nat>, kind: Kind, binding: Option<Binding>, ds: seq<Decision>)
    requires job == None || binding != None
    ensures var c := AfterAll(Fresh(job, kind, binding), ds);
      c.published == [] && c.request.binding == binding && (job == None ==> c.request.job == None)
  {
    if |ds| > 0 { OthersPublishNothing(job, kind, binding, ds[..|ds| - 1]); }
  }

  /** Does the decision re-send a revised job far enough to refresh the row? */
  predicate Refreshing(c: Case, d: Decision) {
    && d.Revise? && d.feedback != "" && !RevisionBarred(c.request) && c.request.job.Some?
    && d.world.regenerated.Some? && !d.world.send.RaisesFirst?
  }

  predicate Refreshes(c: Case, ds: seq<Decision>, i: int) {
    0 <= i < |ds| && Refreshing(AfterAll(c, ds[..i]), ds[i])
  }

  lemma KindAfter(c: Case, d: Decision)
    ensures After(c, d).request.kind == if Refreshing(c, d) then Asset else c.request.kind
  {}

  /** A revision turns a publish request into an asset request: the re-send refreshes the same row with its own
      kind, and the platforms and schedule of the payload are no longer used.  The kind is kept exactly when no
      revision got as far as the refresh. */
  lemma {:induction false} RevisionForgetsThePlan(job: Option<nat>, binding: Option<Binding>, ds: seq<Decision>)
    ensures var c := Fresh(job, Publish, binding);
      AfterAll(c, ds).request.kind == (if exists i :: Refreshes(c, ds, i) then Asset else Publish)
  {
    hide After, Refreshing;
    var c := Fresh(job, Publish, binding);
    if |ds| > 0 {
      var n := |ds| - 1;
      var init := ds[..n];
      RevisionForgetsThePlan(job, binding, init);
      KindAfter(AfterAll(c, init), ds[n]);
      forall i | 0 <= i < n ensures Refreshes(c, init, i) <==> Refreshes(c, ds, i) { assert init[..i] == ds[..i]; }
      if Refreshes(c, ds, n) {
        assert exists i :: Refreshes(c, ds, i);
      } else if i :| Refreshes(c, init, i) {
        assert Refreshes(c, ds, i);
      } else {
        assert forall i :: !Refreshes(c, ds, i);
      }
    }
  }

  /** A publish request approved at once keeps its plan; revised once and then approved, it does not. */
  lemma OneRevisionForgetsThePlan()
    ensures var c := Fresh(Some(1), Publish, None);
      && AfterAll(c, [Approve(false)]).published == [Publication(1, true)]
      && AfterAll(c, [Revise("shorter", World(Some(2), Sent)), Approve(false)]).published == [Publication(2, false)]
  {
    var c := Fresh(Some(1), Publish, None);
    var revise := Revise("shorter", World(Some(2), Sent));
    assert [Approve(false)][..0] == [] && [revise][..0] == [] && [revise, Approve(false)][..1] == [revise];
    assert AfterAll(c, [revise]).request == Request(Pending, 1, Some(2), Asset, None);
  }

  // ---- The service ----

  /** One request row and what was done on its behalf. */
  class ApprovalRequest {
    var status: Status
    var revisionCount: nat
    var contentJob: Option<nat>
    var approvalType: Kind
    var binding: Option<Binding>
    ghost var chain: seq<nat>
    ghost var lost: nat
    var published: seq<Publication>

    ghost function Value(): Case
      reads this
    {
      Case(Request(status, revisionCount, contentJob, approvalType, binding), chain, published, lost)
    }

    constructor (job: Option<nat>, kind: Kind, binding: Option<Binding>)
      ensures Value() == Fresh(job, kind, binding)
    {
      status, revisionCount, contentJob, approvalType, this.binding := Pending, 0, job, kind, binding;
      chain, published, lost := [], [], 0;
    }

    /** `publish_now`. */
    method PublishNow(planned: bool, raises: bool) returns (ok: bool)
      requires contentJob.Some?
      modifies this`published
      ensures ok == !raises
      ensures published == old(published) + if ok then [Publication(contentJob.value, planned)] else []
    {
      if raises { return false; }
      published := published + [Publication(contentJob.value, planned)];
      ok := true;
    }

    /** The status is written before anything is published, and stays when publishing raises. */
    method ApplyApprove(publishRaises: bool) returns (ok: bool)
      modifies this
      ensures Value() == After(old(Value()), Approve(publishRaises))
      ensures ok <==> !Raises(old(Value()), Approve(publishRaises))
    {
      status := Approved;
      if contentJob.None? || binding.Some? { return true; }
      if approvalType == Publish {
        ok := PublishNow(true, publishRaises);
        return;
      }
      if approvalType == Asset {
        ok := PublishNow(false, publishRaises);
        return;
      }
      ok := true;
    }

    /** Re-send after a revision: the row found by the new job is this one, and it is refreshed as an asset. */
    method SendForApproval(send: Send) returns (ok: bool)
      requires status == Pending
      modifies this`status, this`approvalType
      ensures ok == send.Sent? && status == Pending
      ensures approvalType == if send.RaisesFirst? then old(approvalType) else Asset
    {
      if send.RaisesFirst? { return false; }
      status, approvalType := Pending, Asset;
      ok := send.Sent?;
    }

    method ApplyRevise(world: World) returns (ok: bool)
      modifies this
      ensures Value() == Revised(old(Value()), world)
      ensures ok <==> !Raises(old(Value()), Revise("feedback", world))
    {
      if binding.Some? && !binding.value.allowRevision {
        status := Rejected;
        return true;
      }
      if revisionCount >= MAX_REVISIONS {
        status := Rejected;
        return true;
      }
      status := RevisionRequested;
      revisionCount := revisionCount + 1;
      if contentJob.None? { return true; }
      if world.regenerated.None? {
        lost := lost + 1;
        return false;
      }
      contentJob, status := world.regenerated, Pending;
      chain := chain + [world.regenerated.value];
      ok := SendForApproval(world.send);
    }

    /** `apply_intent` and `operator_action`: the same decisions from a message or from the dashboard. */
    method Decide(d: Decision) returns (ok: bool)
      modifies this
      ensures Value() == After(old(Value()), d)
      ensures ok <==> !Raises(old(Value()), d)
    {
      ok := true;
      match d {
        case Approve(publishRaises) => ok := ApplyApprove(publishRaises);
        case Reject => status := Rejected;
        case Revise(feedback, world) => if feedback != "" { ok := ApplyRevise(world); }
        case Regenerate(world) =>
          if contentJob.None? || world.regenerated.None? { return false; }
          contentJob, status, revisionCount := world.regenerated, Pending, revisionCount + 1;
          chain := chain + [world.regenerated.value];
        case Unknown =>
        case Unsupported => ok := false;
      }
    }
  }
}

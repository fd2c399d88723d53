/**
 Editing a published note: destructive steps, components, topics, and at most one submission that
 overwrites the whole note. What the page answers is the `World`; everything the run does is logged.
 */
module EditorFlow {
  import opened Collections
  import opened TopicPlan

  datatype Edit = ImageRemove | ImageAdd | Title | Content

  datatype Component = CollectionRemove | Collection | Quote | Activity | Original | Cover

  datatype Status = Done | Skipped | Error

  /** How a step ends: with a status, with an exception, or with the error that must stop everything. */
  datatype Answer = Ended(status: Status) | Threw | Hard

  /** Which changes are asked for. An empty title is a title; empty lists and blank values ask for nothing. */
  datatype Request = Request(
    removes: bool, adds: bool, title: bool, content: bool, expectedCount: Option<nat>,
    components: set<Component>, topics: seq<string>)

  /** `counted` is the number of images before any step, `recounted` the one read by the image gate. */
  datatype World = World(
    opens: bool, permission: Option<string>, counted: Option<nat>, recounted: Option<nat>,
    edit: Edit -> Answer, component: Component -> Answer,
    topicsOnPage: seq<string>, topicChosen: bool,
    permissionAgain: Option<string>, buttonFound: bool)

  datatype Event =
    | EditRun(edit: Edit, done: bool)
    | ComponentRun(component: Component)
    | TopicsTyped
    | PermissionRead(found: Option<string>)
    | PublishClick

  /** `clicked` says whether the submission was clicked; whether the platform answered it is not part of this model. */
  datatype Run = Raised | Returned(clicked: bool, aborted: bool, edits: seq<EditOutcome>)

  /** An edit step that was carried out, one that the image gate refused, or one that was never begun. */
  datatype EditOutcome = Ran(status: Status) | Gated | NotRun

  predicate IsImageStep(e: Edit) { e.ImageRemove? || e.ImageAdd? }

  /** The requested steps in their fixed order. */
  function StepsOf(r: Request): seq<Edit> {
    (if r.removes then [ImageRemove] else []) + (if r.adds then [ImageAdd] else [])
    + (if r.title then [Title] else []) + (if r.content then [Content] else [])
  }

  /** The image count could be read twice and is the declared one. */
  predicate GateOpen(r: Request, w: World) {
    w.counted.Some? && r.expectedCount.Some? && w.recounted == r.expectedCount
  }

  /** An exception in a step counts as its failure. */
  function StatusOf(a: Answer): Status { if a.Ended? then a.status else Error }

  /** The step is carried out and succeeds. */
  predicate Succeeds(gate: bool, w: World, e: Edit) {
    (IsImageStep(e) ==> gate) && StatusOf(w.edit(e)) == Done
  }

  const ORDER := [CollectionRemove, Collection, Quote, Activity, Original, Cover]

  /** The steps that leave the page untouched when they find their goal reached. */
  predicate Idempotent(c: Component) { c.CollectionRemove? || c.Original? || c.Cover? }

  /** The declaration and cover steps swallow every exception. */
  predicate Stops(c: Component, w: World) { w.component(c).Hard? && !c.Original? && !c.Cover? }

  predicate ComponentChanges(c: Component, w: World) {
    StatusOf(w.component(c)) == Done || (StatusOf(w.component(c)) == Skipped && !Idempotent(c))
  }

  predicate TopicsChange(r: Request, w: World) {
    r.topics != [] && PlanAppends(w.topicsOnPage, r.topics, MAX_TOPICS).toAdd != [] && w.topicChosen
  }

  /** The exact condition under which the note is submitted, once its page is open and the permission is known. */
  predicate SubmitsSteps(steps: seq<Edit>, gate: bool, r: Request, w: World) {
    && (forall e <- steps :: Succeeds(gate, w, e))
    && Unstopped(r, w)
    && (steps != [] || Changes(r, w))
    && w.permissionAgain == w.permission && w.buttonFound
  }

  predicate Submits(r: Request, w: World) {
    w.opens && w.permission.Some? && SubmitsSteps(StepsOf(r), GateOpen(r, w), r, w)
  }

  /** The outcomes of the steps, in order. */
  function Outcomes(steps: seq<Edit>, gate: bool, w: World): (o: seq<EditOutcome>)
    ensures |o| == |steps|
  {
    if steps == [] then []
    else
      var e, before := steps[|steps| - 1], Outcomes(steps[..|steps| - 1], gate, w);
      before + [if IsImageStep(e) && !gate then Gated else if Aborted(before) then NotRun else Ran(StatusOf(w.edit(e)))]
  }

  predicate Aborted(outcomes: seq<EditOutcome>) { exists o <- outcomes :: o != Ran(Done) }

  lemma AbortedOneMore(before: seq<EditOutcome>, o: EditOutcome)
    ensures Aborted(before + [o]) <==> Aborted(before) || o != Ran(Done)
  {
    if x :| x in before && x != Ran(Done) { assert x in before + [o]; }
    assert (before + [o])[|before|] == o && o in before + [o];
    if Aborted(before + [o]) {
      var x :| x in before + [o] && x != Ran(Done);
      assert x in before || x == o;
    }
  }

  /** A run of successes, then one failure, then nothing that was carried out. */
  ghost predicate StopsAtFirstFailure(steps: seq<Edit>, gate: bool, w: World, outcomes: seq<EditOutcome>, k: nat)
    requires |outcomes| == |steps|
  {
    && k <= |outcomes|
    && (forall i :: 0 <= i < k ==> outcomes[i] == Ran(Done) && Succeeds(gate, w, steps[i]))
    && (k < |outcomes| ==> !Succeeds(gate, w, steps[k]) && !outcomes[k].NotRun? && outcomes[k] != Ran(Done))
    && (forall i :: k < i < |outcomes| ==> !outcomes[i].Ran?)
  }

  /** An image step is refused exactly by the gate, and what was carried out ended as the page answered. */
  predicate OutcomeFits(o: EditOutcome, gate: bool, w: World, e: Edit) {
    && (o.Gated? <==> (e == ImageRemove || e == ImageAdd) && !gate)
    && (o.Ran? ==> o.status == if w.edit(e).Ended? then w.edit(e).status else Error)
  }

  lemma {:induction false} OutcomesFit(steps: seq<Edit>, gate: bool, w: World)
    ensures forall i | 0 <= i < |steps| :: OutcomeFits(Outcomes(steps, gate, w)[i], gate, w, steps[i])
  {
    if steps != [] {
      var front := steps[..|steps| - 1];
      OutcomesFit(front, gate, w);
      assert forall i | 0 <= i < |front| :: front[i] == steps[i] && Outcomes(steps, gate, w)[i] == Outcomes(front, gate, w)[i];
    }
  }

  lemma {:induction false} OutcomeShape(steps: seq<Edit>, gate: bool, w: World) returns (k: nat)
    ensures StopsAtFirstFailure(steps, gate, w, Outcomes(steps, gate, w), k)
    ensures Aborted(Outcomes(steps, gate, w)) <==> k < |steps|
    ensures Aborted(Outcomes(steps, gate, w)) <==> exists e <- steps :: !Succeeds(gate, w, e)
  {
    if steps == [] {
      k := 0;
    } else {
      var front, last := steps[..|steps| - 1], steps[|steps| - 1];
      k := OutcomeShape(front, gate, w);
      AbortedOneMore(Outcomes(front, gate, w), Outcomes(steps, gate, w)[|front|]);
      assert steps == front + [last];
      if k == |front| && Succeeds(gate, w, last) { k := |steps|; }
    }
  }

  /** The edit steps that are carried out, as the log shows them. */
  function EditEvents(steps: seq<Edit>, gate: bool, w: World): seq<Event> {
    if steps == [] then []
    else
      var front, o := steps[..|steps| - 1], Outcomes(steps, gate, w)[|steps| - 1];
      EditEvents(front, gate, w) + if o.Ran? then [EditRun(steps[|steps| - 1], o.status == Done)] else []
  }

  /** Some requested component among the first `n` stops the run. */
  predicate StoppedWithin(r: Request, w: World, n: nat)
    requires n <= |ORDER|
  {
    n > 0 && (StoppedWithin(r, w, n - 1) || (ORDER[n - 1] in r.components && Stops(ORDER[n - 1], w)))
  }

  /** The requested components among the first `n`, each tried once, up to one that stops the run. */
  function ComponentEvents(r: Request, w: World, n: nat): seq<Event>
    requires n <= |ORDER|
  {
    if n == 0 then []
    else
      ComponentEvents(r, w, n - 1)
      + if ORDER[n - 1] in r.components && !StoppedWithin(r, w, n - 1) then [ComponentRun(ORDER[n - 1])] else []
  }

  predicate TypesTopics(r: Request, w: World) {
    r.topics != [] && PlanAppends(w.topicsOnPage, r.topics, MAX_TOPICS).toAdd != []
  }

  function SubmitEvents(w: World): seq<Event> {
    [PermissionRead(w.permissionAgain)] + if w.permissionAgain == w.permission && w.buttonFound then [PublishClick] else []
  }

  /** What follows the edits. */
  function FinishEvents(r: Request, w: World, anyEdit: bool): seq<Event> {
    ComponentEvents(r, w, |ORDER|)
    + if !Unstopped(r, w) then []
      else (if TypesTopics(r, w) then [TopicsTyped] else []) + if anyEdit || Changes(r, w) then SubmitEvents(w) else []
  }

  function StepEvents(steps: seq<Edit>, gate: bool, r: Request, w: World): seq<Event> {
    EditEvents(steps, gate, w) + if Aborted(Outcomes(steps, gate, w)) then [] else FinishEvents(r, w, steps != [])
  }

  /** What the run returns: after a failed edit at once; otherwise after a click, or because nothing changed. */
  function StepsResult(steps: seq<Edit>, gate: bool, r: Request, w: World): Run {
    var edits := Outcomes(steps, gate, w);
    if Aborted(edits) then Returned(false, true, edits)
    else if !Unstopped(r, w) then Raised
    else if steps == [] && !Changes(r, w) then Returned(false, false, edits)
    else if w.permissionAgain == w.permission && w.buttonFound then Returned(true, false, edits)
    else Raised
  }

  function RunResult(r: Request, w: World): Run {
    if !w.opens || w.permission.None? then Raised else StepsResult(StepsOf(r), GateOpen(r, w), r, w)
  }

  /** Everything that one run does on the page. */
  function RunEvents(r: Request, w: World): seq<Event> {
    if !w.opens then []
    else [PermissionRead(w.permission)] + if w.permission.None? then [] else StepEvents(StepsOf(r), GateOpen(r, w), r, w)
  }

  /** The decision to submit, from the components' statuses, the edits that succeeded and the topics. */
  predicate SomethingToSubmit(outcomes: map<Component, Status>, anyEdit: bool, topics: bool) {
    var ok := set c | c in outcomes && outcomes[c] != Error;
    var untouched := set c | c in outcomes && outcomes[c] == Skipped && Idempotent(c);
    && !(untouched != {} && ok <= untouched && !anyEdit && !topics)
    && !(ok == {} && !anyEdit && !topics)
  }

  /** The two refusals together leave exactly the runs that changed something. */
  lemma DecisionIsChange(outcomes: map<Component, Status>, anyEdit: bool, topics: bool)
    ensures SomethingToSubmit(outcomes, anyEdit, topics)
            <==> anyEdit || topics || exists c :: c in outcomes && (outcomes[c] == Done || (outcomes[c] == Skipped && !Idempotent(c)))
  {
    var ok := set c | c in outcomes && outcomes[c] != Error;
    var untouched := set c | c in outcomes && outcomes[c] == Skipped && Idempotent(c);
    if c :| c in outcomes && (outcomes[c] == Done || (outcomes[c] == Skipped && !Idempotent(c))) {
      assert c in ok && c !in untouched;
    } else {
      forall c | c in ok ensures c in untouched {}
      if ok != {} {
        var c :| c in ok;
        assert c in untouched;
      }
    }
  }

  lemma EventsGrouped(a: seq<Event>, b: seq<Event>, c: seq<Event>)
    ensures a + b + c == a + (b + c)
  {
  }

  ghost predicate ClickFree(events: seq<Event>) { PublishClick !in events }

  class Session {
    /** Everything done on the page, oldest first. */
    var log: seq<Event>

    constructor ()
      ensures log == []
    {
      log := [];
    }

    /** The destructive steps: after the first failure nothing more is carried out. */
    method RunEditSteps(steps: seq<Edit>, gate: bool, w: World) returns (outcomes: seq<EditOutcome>, aborted: bool)
      modifies `log
      ensures outcomes == Outcomes(steps, gate, w) && aborted == Aborted(outcomes)
      ensures log == old(log) + EditEvents(steps, gate, w)
    {
      outcomes, aborted := [], false;
      for i := 0 to |steps|
        invariant outcomes == Outcomes(steps[..i], gate, w) && aborted == Aborted(outcomes)
        invariant log == old(log) + EditEvents(steps[..i], gate, w)
      {
        var e := steps[i];
        assert steps[..i + 1][..i] == steps[..i];
        ghost var before := outcomes;
        if IsImageStep(e) && !gate {
          outcomes, aborted := outcomes + [Gated], true;
        } else if aborted {
          outcomes := outcomes + [NotRun];
        } else {
          var status := StatusOf(w.edit(e));
          log := log + [EditRun(e, status == Done)];
          outcomes, aborted := outcomes + [Ran(status)], status != Done;
        }
        AbortedOneMore(before, outcomes[i]);
      }
      assert steps[..|steps|] == steps;
    }

    /** The component steps, each on its own; only the hard error stops the run. */
    method ApplyComponents(r: Request, w: World) returns (outcomes: map<Component, Status>, stopped: bool)
      modifies `log
      ensures stopped <==> exists c :: c in r.components && Stops(c, w)
      ensures !stopped ==> outcomes == map c | c in r.components :: StatusOf(w.component(c))
      ensures log == old(log) + ComponentEvents(r, w, |ORDER|)
    {
      outcomes, stopped := map[], false;
      for i := 0 to |ORDER|
        invariant forall c :: c in outcomes <==> c in r.components && c in ORDER[..i]
        invariant forall c :: c in outcomes ==> outcomes[c] == StatusOf(w.component(c))
        invariant forall c :: c in r.components && c in ORDER[..i] ==> !Stops(c, w)
        invariant !StoppedWithin(r, w, i) && log == old(log) + ComponentEvents(r, w, i)
      {
        var c := ORDER[i];
        assert ORDER[..i + 1] == ORDER[..i] + [c];
        if c !in r.components { continue; }
        log := log + [ComponentRun(c)];
        if Stops(c, w) {
          NothingAfterStop(r, w, i + 1, |ORDER|);
          return outcomes, true;
        }
        outcomes := outcomes[c := StatusOf(w.component(c))];
      }
      forall c ensures c in ORDER[..|ORDER|] { EveryComponent(c); }
      SameStatuses(outcomes, map c | c in r.components :: StatusOf(w.component(c)));
    }

    /** Types the missing topics, if any; says whether one of them was chosen from the list. */
    method AppendTopics(r: Request, w: World) returns (changed: bool)
      modifies `log
      ensures changed == TopicsChange(r, w)
      ensures log == old(log) + if TypesTopics(r, w) then [TopicsTyped] else []
    {
      changed := false;
      if r.topics != [] && PlanAppends(w.topicsOnPage, r.topics, MAX_TOPICS).toAdd != [] {
        log := log + [TopicsTyped];
        changed := w.topicChosen;
      }
    }

    /** Reads the permission again and clicks only if it is unchanged and the button is certain. */
    method Submit(w: World) returns (clicked: bool)
      modifies `log
      ensures clicked <==> w.permissionAgain == w.permission && w.buttonFound
      ensures log == old(log) + SubmitEvents(w)
    {
      log := log + [PermissionRead(w.permissionAgain)];
      if w.permissionAgain != w.permission || !w.buttonFound { return false; }
      log := log + [PublishClick];
      clicked := true;
    }

    /** Everything after the edits: nothing here clicks unless something changed in the editor. */
    method FinishRun(r: Request, w: World, anyEdit: bool) returns (clicked: bool, raised: bool)
      modifies `log
      ensures log == old(log) + FinishEvents(r, w, anyEdit)
      ensures clicked <==> Unstopped(r, w) && (anyEdit || Changes(r, w)) && w.permissionAgain == w.permission && w.buttonFound
      ensures raised <==> !clicked && !(Unstopped(r, w) && !anyEdit && !Changes(r, w))
    {
      var outcomes, stopped := ApplyComponents(r, w);
      if stopped { return false, true; }
      var topics := AppendTopics(r, w);
      clicked, raised := SubmitChange(r, w, anyEdit, outcomes, topics);
    }

    /** Submits exactly if something changed. */
    method SubmitChange(r: Request, w: World, anyEdit: bool, outcomes: map<Component, Status>, topics: bool)
      returns (clicked: bool, raised: bool)
      requires outcomes == (map c | c in r.components :: StatusOf(w.component(c))) && topics == TopicsChange(r, w)
      modifies `log
      ensures log == old(log) + if anyEdit || Changes(r, w) then SubmitEvents(w) else []
      ensures clicked <==> (anyEdit || Changes(r, w)) && w.permissionAgain == w.permission && w.buttonFound
      ensures raised <==> !clicked && (anyEdit || Changes(r, w))
    {
      DecisionIsChange(outcomes, anyEdit, topics);
      ChangesSeen(r, w, outcomes);
      if !SomethingToSubmit(outcomes, anyEdit, topics) { return false, false; }
      clicked := Submit(w);
      raised := !clicked;
    }

    /** The run on an opened page whose permission is known. */
    method RunSteps(steps: seq<Edit>, gate: bool, r: Request, w: World) returns (run: Run)
      modifies `log
      ensures log == old(log) + StepEvents(steps, gate, r, w) && run == StepsResult(steps, gate, r, w)
    {
      var edits, aborted := RunEditSteps(steps, gate, w);
      if aborted { return Returned(false, true, edits); }
      var clicked, raised := FinishRun(r, w, steps != []);
      run := if raised then Raised else Returned(clicked, false, edits);
    }

    /** The run on an opened page: without a readable permission nothing is done. */
    method RunOpened(steps: seq<Edit>, gate: bool, r: Request, w: World) returns (run: Run)
      modifies `log
      ensures log == old(log) + ([PermissionRead(w.permission)] + if w.permission.None? then [] else StepEvents(steps, gate, r, w))
      ensures run == if w.permission.None? then Raised else StepsResult(steps, gate, r, w)
    {
      log := log + [PermissionRead(w.permission)];
      if w.permission.None? { return Raised; }
      run := RunSteps(steps, gate, r, w);
      EventsGrouped(old(log), [PermissionRead(w.permission)], StepEvents(steps, gate, r, w));
    }

    method RunOnce(r: Request, w: World) returns (run: Run)
      modifies `log
      ensures log == old(log) + RunEvents(r, w) && run == RunResult(r, w)
    {
      if !w.opens { return Raised; }
      run := RunOpened(StepsOf(r), GateOpen(r, w), r, w);
    }

    /**
     One run: what it does on the page, in order, and what it returns. It clicks at most once, as its very last
     act, right after reading the same permission again, and exactly when `Submits` says so.
     */
    method SetNoteComponents(r: Request, w: World) returns (run: Run)
      modifies `log
      ensures log == old(log) + RunEvents(r, w) && run == RunResult(r, w)
      ensures var events := log[|old(log)|..];
              if Submits(r, w) then EndsWithClick(events, w) else ClickFree(events)
      ensures run.Returned? ==> run.clicked == Submits(r, w)
    {
      run := RunOnce(r, w);
      ClicksAtMostOnce(r, w);
      assert log[|old(log)|..] == RunEvents(r, w);
    }
  }

  // ---- what a run does, in terms of the request and the page's answers ----

  lemma {:induction false} NothingAfterStop(r: Request, w: World, n: nat, m: nat)
    requires n <= m <= |ORDER| && StoppedWithin(r, w, n)
    ensures StoppedWithin(r, w, m) && ComponentEvents(r, w, m) == ComponentEvents(r, w, n)
    decreases m
  {
    if n < m { NothingAfterStop(r, w, n, m - 1); }
  }

  /** The images could be counted before any step, and count as declared right before the image steps. */
  predicate Declared(r: Request, w: World) {
    w.counted.Some? && r.expectedCount.Some? && w.recounted.Some? && w.recounted.value == r.expectedCount.value
  }

  predicate Requested(r: Request, e: Edit) {
    match e
    case ImageRemove => r.removes
    case ImageAdd => r.adds
    case Title => r.title
    case Content => r.content
  }

  /** All requested edits were done, and the images were declared right if one of them is about images. */
  predicate EditsDone(r: Request, w: World) {
    && (r.removes || r.adds ==> Declared(r, w))
    && (forall e: Edit :: Requested(r, e) ==> w.edit(e) == Ended(Done))
  }

  /** The edit `d` comes before the edit `e`. */
  predicate Before(d: Edit, e: Edit) {
    match e
    case ImageRemove => false
    case ImageAdd => d.ImageRemove?
    case Title => d.ImageRemove? || d.ImageAdd?
    case Content => !d.Content?
  }

  lemma RequestedSteps(r: Request, e: Edit)
    ensures e in StepsOf(r) <==> Requested(r, e)
  {
    assert ImageRemove in [ImageRemove] && ImageAdd in [ImageAdd] && Title in [Title] && Content in [Content];
  }

  lemma EditsDoneExactly(r: Request, w: World)
    ensures !Aborted(Outcomes(StepsOf(r), GateOpen(r, w), w)) <==> EditsDone(r, w)
    ensures !Aborted(Outcomes(StepsOf(r), GateOpen(r, w), w)) <==> forall e <- StepsOf(r) :: Succeeds(GateOpen(r, w), w, e)
  {
    AbortedByFailure(StepsOf(r), GateOpen(r, w), w);
    forall e ensures e in StepsOf(r) <==> Requested(r, e) { RequestedSteps(r, e); }
    if EditsDone(r, w) {
      forall e | e in StepsOf(r) ensures Succeeds(GateOpen(r, w), w, e) { assert Requested(r, e); }
    }
    if forall e <- StepsOf(r) :: Succeeds(GateOpen(r, w), w, e) {
      forall e: Edit | Requested(r, e) ensures w.edit(e) == Ended(Done) { assert e in StepsOf(r); }
      if r.removes { assert Requested(r, ImageRemove); }
      if r.adds { assert Requested(r, ImageAdd); }
    }
  }

  lemma AbortedByFailure(steps: seq<Edit>, gate: bool, w: World)
    ensures Aborted(Outcomes(steps, gate, w)) <==> exists e <- steps :: !Succeeds(gate, w, e)
  {
    var k := OutcomeShape(steps, gate, w);
  }

  ghost predicate EndsWithClick(events: seq<Event>, w: World) {
    && |events| >= 2 && ClickFree(events[..|events| - 1])
    && events[|events| - 2] == PermissionRead(w.permission) && events[|events| - 1] == PublishClick
  }

  lemma JoinEvents(first: seq<Event>, more: seq<Event>, w: World)
    requires ClickFree(first)
    ensures ClickFree(more) ==> ClickFree(first + more)
    ensures EndsWithClick(more, w) ==> EndsWithClick(first + more, w)
  {
    if EndsWithClick(more, w) {
      assert (first + more)[..|first + more| - 1] == first + more[..|more| - 1];
    }
  }

  predicate Unstopped(r: Request, w: World) { forall c <- r.components :: !Stops(c, w) }

  /** A component or the topics changed something. */
  predicate Changes(r: Request, w: World) { TopicsChange(r, w) || exists c <- r.components :: ComponentChanges(c, w) }

  lemma ChangesSeen(r: Request, w: World, outcomes: map<Component, Status>)
    requires outcomes == map c | c in r.components :: StatusOf(w.component(c))
    ensures (exists c <- r.components :: ComponentChanges(c, w))
            <==> exists c :: c in outcomes && (outcomes[c] == Done || (outcomes[c] == Skipped && !Idempotent(c)))
  {
    if c :| c in r.components && ComponentChanges(c, w) { assert c in outcomes; }
  }

  lemma EveryComponent(c: Component)
    ensures c in ORDER
  {
    match c
    case CollectionRemove => assert ORDER[0] == c;
    case Collection => assert ORDER[1] == c;
    case Quote => assert ORDER[2] == c;
    case Activity => assert ORDER[3] == c;
    case Original => assert ORDER[4] == c;
    case Cover => assert ORDER[5] == c;
  }

  lemma SameStatuses(a: map<Component, Status>, b: map<Component, Status>)
    requires forall c :: c in a <==> c in b
    requires forall c :: c in a ==> a[c] == b[c]
    ensures a == b
  {
    assert a.Keys == b.Keys;
  }

  lemma {:induction false} EditsAreClickFree(steps: seq<Edit>, gate: bool, w: World)
    ensures ClickFree(EditEvents(steps, gate, w))
  {
    if steps != [] { EditsAreClickFree(steps[..|steps| - 1], gate, w); }
  }

  lemma {:induction false} ComponentsAreClickFree(r: Request, w: World, n: nat)
    requires n <= |ORDER|
    ensures ClickFree(ComponentEvents(r, w, n))
  {
    if n > 0 { ComponentsAreClickFree(r, w, n - 1); }
  }

  lemma FinishClicks(r: Request, w: World, anyEdit: bool)
    ensures if Unstopped(r, w) && (anyEdit || Changes(r, w)) && w.permissionAgain == w.permission && w.buttonFound
            then EndsWithClick(FinishEvents(r, w, anyEdit), w) else ClickFree(FinishEvents(r, w, anyEdit))
  {
    var first, typed := ComponentEvents(r, w, |ORDER|), if TypesTopics(r, w) then [TopicsTyped] else [];
    ComponentsAreClickFree(r, w, |ORDER|);
    if Unstopped(r, w) && (anyEdit || Changes(r, w)) {
      JoinEvents(typed, SubmitEvents(w), w);
      JoinEvents(first, typed + SubmitEvents(w), w);
    }
  }

  /** The note is submitted at most once, as the very last act, right after the same permission was read again. */
  lemma ClicksAtMostOnce(r: Request, w: World)
    ensures if Submits(r, w) then EndsWithClick(RunEvents(r, w), w) else ClickFree(RunEvents(r, w))
    ensures RunResult(r, w).Returned? ==> RunResult(r, w).clicked == Submits(r, w)
  {
    if w.opens && w.permission.Some? {
      var steps, gate := StepsOf(r), GateOpen(r, w);
      EditsDoneExactly(r, w);
      EditsAreClickFree(steps, gate, w);
      FinishClicks(r, w, steps != []);
      if !Aborted(Outcomes(steps, gate, w)) { JoinEvents(EditEvents(steps, gate, w), FinishEvents(r, w, steps != []), w); }
      JoinEvents([PermissionRead(w.permission)], StepEvents(steps, gate, r, w), w);
    }
  }

  /** A requested topic is missing on the page, there is room for it, and one was chosen from the list. */
  predicate GainsTopic(r: Request, w: World) {
    w.topicChosen && |NormalNames(w.topicsOnPage)| < 10
    && exists x <- NormalNames(r.topics) :: x !in NormalNames(w.topicsOnPage)
  }

  lemma TopicsExactly(r: Request, w: World)
    ensures TopicsChange(r, w) <==> GainsTopic(r, w)
    ensures TypesTopics(r, w) <==> |NormalNames(w.topicsOnPage)| < 10 && exists x <- NormalNames(r.topics) :: x !in NormalNames(w.topicsOnPage)
  {
    var have := NormalNames(w.topicsOnPage);
    if x :| x in NormalNames(r.topics) && x !in have {
      MissingIsAdded(w.topicsOnPage, r.topics, MAX_TOPICS, x);
    } else if TypesTopics(r, w) {
      var x := PlanAppends(w.topicsOnPage, r.topics, MAX_TOPICS).toAdd[0];
      PlannedNames(w.topicsOnPage, r.topics, MAX_TOPICS, x);
      assert false;
    }
  }

  /** A component that knows the error that stops everything answered with it; original and cover know none. */
  predicate HardError(r: Request, w: World) {
    exists c | c in r.components :: w.component(c).Hard? && c != Original && c != Cover
  }

  /**
   Something was changed: an edit was asked for, a topic was gained, a component was carried out, or one of
   collection, quote and activity was found as it should be.
   */
  predicate Altered(r: Request, w: World) {
    || r.removes || r.adds || r.title || r.content || GainsTopic(r, w)
    || (exists c | c in r.components :: w.component(c) == Ended(Done))
    || (exists c | c in r.components && (c == Collection || c == Quote || c == Activity) :: w.component(c) == Ended(Skipped))
  }

  /** The exact condition of the submission. */
  lemma SubmitsExactly(r: Request, w: World)
    ensures Submits(r, w) <==>
            && w.opens && w.permission.Some? && w.permissionAgain == w.permission && w.buttonFound
            && EditsDone(r, w) && !HardError(r, w) && Altered(r, w)
  {
    EditsDoneExactly(r, w);
    HardErrorStops(r, w);
    AlteredExactly(r, w);
  }

  /**
   What the run reports, exactly: an error without a page, a permission, or an answer to be trusted; an abort
   after a failed edit; a click exactly when the note is submitted; and otherwise that nothing changed.
   */
  lemma ResultExactly(r: Request, w: World)
    ensures var run := RunResult(r, w);
            && (run.Raised? <==>
                  || !w.opens || w.permission.None?
                  || (EditsDone(r, w) && (HardError(r, w) || (Altered(r, w) && !(w.permissionAgain == w.permission && w.buttonFound)))))
            && (run.Returned? ==>
                  && run.edits == Outcomes(StepsOf(r), GateOpen(r, w), w)
                  && (run.aborted <==> !EditsDone(r, w))
                  && (run.clicked <==> EditsDone(r, w) && Altered(r, w)))
  {
    var steps := StepsOf(r);
    EditsDoneExactly(r, w);
    HardErrorStops(r, w);
    AlteredExactly(r, w);
  }

  lemma HardErrorStops(r: Request, w: World)
    ensures HardError(r, w) <==> !Unstopped(r, w)
  {
  }

  lemma AlteredExactly(r: Request, w: World)
    ensures Altered(r, w) <==> StepsOf(r) != [] || Changes(r, w)
  {
    TopicsExactly(r, w);
    ChangesExactly(r, w);
    forall e ensures e in StepsOf(r) <==> Requested(r, e) { RequestedSteps(r, e); }
  }

  /** Topics are typed exactly if the edits were done, nothing stopped the run, and a requested topic is missing and fits. */
  lemma TopicsTypedExactly(r: Request, w: World)
    ensures TopicsTyped in RunEvents(r, w)
            <==> && w.opens && w.permission.Some? && EditsDone(r, w) && !HardError(r, w)
                 && |NormalNames(w.topicsOnPage)| < 10
                 && exists x <- NormalNames(r.topics) :: x !in NormalNames(w.topicsOnPage)
  {
    var steps, gate := StepsOf(r), GateOpen(r, w);
    EditsDoneExactly(r, w);
    HardErrorStops(r, w);
    TopicsExactly(r, w);
    OnlyTheFinishTypesTopics(r, w);
  }

  lemma {:induction false} EditsTypeNoTopics(steps: seq<Edit>, gate: bool, w: World)
    ensures TopicsTyped !in EditEvents(steps, gate, w)
  {
    if steps != [] { EditsTypeNoTopics(steps[..|steps| - 1], gate, w); }
  }

  lemma OnlyTheFinishTypesTopics(r: Request, w: World)
    ensures TopicsTyped in RunEvents(r, w)
            <==> && w.opens && w.permission.Some? && !Aborted(Outcomes(StepsOf(r), GateOpen(r, w), w))
                 && Unstopped(r, w) && TypesTopics(r, w)
  {
    var steps, gate := StepsOf(r), GateOpen(r, w);
    EditsTypeNoTopics(steps, gate, w);
    ComponentsOnly(r, w, |ORDER|, TopicsTyped);
    assert TopicsTyped !in SubmitEvents(w);
    assert TopicsTyped in FinishEvents(r, w, steps != []) <==> Unstopped(r, w) && TypesTopics(r, w);
    assert TopicsTyped in StepEvents(steps, gate, r, w)
           <==> !Aborted(Outcomes(steps, gate, w)) && TopicsTyped in FinishEvents(r, w, steps != []);
    if w.opens && w.permission.Some? {
      assert RunEvents(r, w) == [PermissionRead(w.permission)] + StepEvents(steps, gate, r, w);
    }
  }

  lemma ChangesExactly(r: Request, w: World)
    ensures (exists c <- r.components :: ComponentChanges(c, w))
            <==> (exists c | c in r.components :: w.component(c) == Ended(Done))
                 || (exists c | c in r.components && (c == Collection || c == Quote || c == Activity) :: w.component(c) == Ended(Skipped))
  {
    if c :| c in r.components && ComponentChanges(c, w) {
      match c
      case CollectionRemove =>
      case Collection =>
      case Quote =>
      case Activity =>
      case Original =>
      case Cover =>
    }
    if c :| c in r.components && w.component(c) == Ended(Done) { assert ComponentChanges(c, w); }
    if c :| c in r.components && (c == Collection || c == Quote || c == Activity) && w.component(c) == Ended(Skipped) {
      assert ComponentChanges(c, w);
    }
  }

  /** The gate lets step `k` through, and all steps before it succeeded. */
  predicate RunsAt(steps: seq<Edit>, gate: bool, w: World, k: nat)
    requires k < |steps|
  {
    (IsImageStep(steps[k]) ==> gate) && forall j | 0 <= j < k :: Succeeds(gate, w, steps[j])
  }

  lemma OneMoreEdit(front: seq<Edit>, last: Edit, gate: bool, w: World, e: Edit, done: bool)
    ensures EditRun(e, done) in EditEvents(front + [last], gate, w)
            <==> EditRun(e, done) in EditEvents(front, gate, w)
                 || (last == e && done == (w.edit(e) == Ended(Done)) && (IsImageStep(e) ==> gate)
                     && forall j | 0 <= j < |front| :: Succeeds(gate, w, front[j]))
  {
    var steps := front + [last];
    assert steps[..|front|] == front;
    AbortedByFailure(front, gate, w);
    assert Aborted(Outcomes(front, gate, w)) <==> exists j | 0 <= j < |front| :: !Succeeds(gate, w, front[j]);
    var o := Outcomes(steps, gate, w)[|front|];
    var more := if o.Ran? then [EditRun(last, o.status == Done)] else [];
    assert EditEvents(steps, gate, w) == EditEvents(front, gate, w) + more;
  }

  /** An edit step of a list is carried out exactly if the gate lets it through and all before it succeeded. */
  lemma {:induction false} EditEventsExactly(steps: seq<Edit>, gate: bool, w: World, e: Edit, done: bool)
    ensures EditRun(e, done) in EditEvents(steps, gate, w)
            <==> done == (w.edit(e) == Ended(Done)) && exists k | 0 <= k < |steps| :: steps[k] == e && RunsAt(steps, gate, w, k)
  {
    if steps != [] {
      var front, last := steps[..|steps| - 1], steps[|steps| - 1];
      assert steps == front + [last];
      EditEventsExactly(front, gate, w, e, done);
      OneMoreEdit(front, last, gate, w, e, done);
      RunsOneMore(front, last, gate, w, e);
    }
  }

  lemma RunsOneMore(front: seq<Edit>, last: Edit, gate: bool, w: World, e: Edit)
    ensures var steps := front + [last];
            (exists k | 0 <= k < |steps| :: steps[k] == e && RunsAt(steps, gate, w, k))
            <==> (exists k | 0 <= k < |front| :: front[k] == e && RunsAt(front, gate, w, k))
                 || (last == e && (IsImageStep(e) ==> gate) && forall j | 0 <= j < |front| :: Succeeds(gate, w, front[j]))
  {
    var steps := front + [last];
    forall k: nat | k < |front| ensures RunsAt(steps, gate, w, k) <==> RunsAt(front, gate, w, k) {
      assert forall j | 0 <= j <= k :: steps[j] == front[j];
    }
    assert RunsAt(steps, gate, w, |front|)
           <==> (IsImageStep(last) ==> gate) && forall j | 0 <= j < |front| :: Succeeds(gate, w, front[j]) by {
      assert forall j | 0 <= j < |front| :: steps[j] == front[j];
    }
    if k :| 0 <= k < |front| && front[k] == e && RunsAt(front, gate, w, k) { assert steps[k] == e; }
    if last == e { assert steps[|front|] == e; }
  }

  /** The requested edits in front of a requested edit are those that come before it. */
  lemma StepOrder(r: Request, k: nat, d: Edit)
    requires k < |StepsOf(r)|
    ensures (exists j | 0 <= j < k :: StepsOf(r)[j] == d) <==> Before(d, StepsOf(r)[k]) && Requested(r, d)
  {
    var steps := StepsOf(r);
    var a := if r.removes then [ImageRemove] else [];
    var b := a + if r.adds then [ImageAdd] else [];
    var c := b + if r.title then [Title] else [];
    assert steps == c + if r.content then [Content] else [];
    if Before(d, steps[k]) && Requested(r, d) {
      var j := match d case ImageRemove => 0 case ImageAdd => |a| case Title => |b| case Content => |c|;
      assert steps[j] == d && j < k;
    }
  }

  lemma {:induction false} ComponentsOnly(r: Request, w: World, n: nat, event: Event)
    requires n <= |ORDER|
    ensures event in ComponentEvents(r, w, n) ==> event.ComponentRun?
  {
    if n > 0 { ComponentsOnly(r, w, n - 1, event); }
  }

  lemma OnlyEditsRunEdits(r: Request, w: World, e: Edit, done: bool)
    ensures EditRun(e, done) in RunEvents(r, w)
            <==> w.opens && w.permission.Some? && EditRun(e, done) in EditEvents(StepsOf(r), GateOpen(r, w), w)
  {
    var event := EditRun(e, done);
    ComponentsOnly(r, w, |ORDER|, event);
    assert event !in SubmitEvents(w);
    assert event !in FinishEvents(r, w, StepsOf(r) != []);
    if w.opens && w.permission.Some? {
      assert RunEvents(r, w) == [PermissionRead(w.permission)] + StepEvents(StepsOf(r), GateOpen(r, w), r, w);
      assert event in StepEvents(StepsOf(r), GateOpen(r, w), r, w) <==> event in EditEvents(StepsOf(r), GateOpen(r, w), w);
    }
  }

  /** Everything that has to be done before the edit is, and the images count as declared where that matters. */
  predicate MayRun(r: Request, w: World, e: Edit) {
    && (e.ImageRemove? || e.ImageAdd? ==> Declared(r, w))
    && (forall d: Edit :: Before(d, e) && Requested(r, d) ==>
          w.edit(d) == Ended(Done) && (d.ImageRemove? || d.ImageAdd? ==> Declared(r, w)))
  }

  lemma MayRunAt(r: Request, w: World, k: nat)
    requires k < |StepsOf(r)|
    ensures RunsAt(StepsOf(r), GateOpen(r, w), w, k) <==> MayRun(r, w, StepsOf(r)[k])
  {
    var steps, gate := StepsOf(r), GateOpen(r, w);
    if MayRun(r, w, steps[k]) {
      forall j | 0 <= j < k ensures Succeeds(gate, w, steps[j]) { StepOrder(r, k, steps[j]); }
    }
    if RunsAt(steps, gate, w, k) {
      forall d: Edit | Before(d, steps[k]) && Requested(r, d)
        ensures w.edit(d) == Ended(Done) && (d.ImageRemove? || d.ImageAdd? ==> Declared(r, w))
      {
        StepOrder(r, k, d);
        var j :| 0 <= j < k && steps[j] == d;
        assert Succeeds(gate, w, steps[j]);
      }
    }
  }

  /** The request has the edit as a step that runs exactly if it is requested and may run. */
  lemma RunningStep(r: Request, w: World, e: Edit)
    ensures var steps := StepsOf(r);
            (exists k | 0 <= k < |steps| :: steps[k] == e && RunsAt(steps, GateOpen(r, w), w, k)) <==> Requested(r, e) && MayRun(r, w, e)
  {
    var steps := StepsOf(r);
    RequestedSteps(r, e);
    if e in steps {
      var k :| 0 <= k < |steps| && steps[k] == e;
      MayRunAt(r, w, k);
    }
    if k :| 0 <= k < |steps| && steps[k] == e && RunsAt(steps, GateOpen(r, w), w, k) { MayRunAt(r, w, k); }
  }

  lemma EditsOfRequest(r: Request, w: World, e: Edit, done: bool)
    ensures EditRun(e, done) in EditEvents(StepsOf(r), GateOpen(r, w), w)
            <==> Requested(r, e) && done == (w.edit(e) == Ended(Done)) && MayRun(r, w, e)
  {
    EditEventsExactly(StepsOf(r), GateOpen(r, w), w, e, done);
    RunningStep(r, w, e);
  }

  /**
   An edit is carried out exactly if it is requested, every requested edit before it was done, and the images
   count as declared if it or one of those is about images.
   */
  lemma EditsExactly(r: Request, w: World, e: Edit, done: bool)
    ensures EditRun(e, done) in RunEvents(r, w)
            <==> w.opens && w.permission.Some? && Requested(r, e) && done == (w.edit(e) == Ended(Done)) && MayRun(r, w, e)
  {
    OnlyEditsRunEdits(r, w, e, done);
    EditsOfRequest(r, w, e, done);
  }

  /** Without a declared count that matches both counts of the page, no image is touched and nothing is submitted. */
  lemma WrongCountTouchesNothing(r: Request, w: World)
    requires r.removes || r.adds
    requires w.counted.None? || r.expectedCount.None? || w.recounted != r.expectedCount
    ensures forall done :: EditRun(ImageRemove, done) !in RunEvents(r, w) && EditRun(ImageAdd, done) !in RunEvents(r, w)
    ensures PublishClick !in RunEvents(r, w)
  {
    forall done ensures EditRun(ImageRemove, done) !in RunEvents(r, w) && EditRun(ImageAdd, done) !in RunEvents(r, w) {
      EditsExactly(r, w, ImageRemove, done);
      EditsExactly(r, w, ImageAdd, done);
    }
    SubmitsExactly(r, w);
    ClicksAtMostOnce(r, w);
  }

  /** With a matching count the first requested image step is carried out. */
  lemma RightCountStarts(r: Request, w: World)
    requires (r.removes || r.adds) && w.opens && w.permission.Some?
    requires w.counted.Some? && r.expectedCount.Some? && w.recounted == r.expectedCount
    ensures var e := if r.removes then ImageRemove else ImageAdd; EditRun(e, w.edit(e) == Ended(Done)) in RunEvents(r, w)
  {
    var e := if r.removes then ImageRemove else ImageAdd;
    EditsExactly(r, w, e, w.edit(e) == Ended(Done));
  }

  // ---- the components of a run ----

  function Position(c: Component): nat {
    match c
    case CollectionRemove => 0
    case Collection => 1
    case Quote => 2
    case Activity => 3
    case Original => 4
    case Cover => 5
  }

  /** A requested component in front of the first `n` answered with the hard error, and is not one that knows none. */
  predicate HardBefore(r: Request, w: World, n: nat) {
    exists d | d in r.components :: Position(d) < n && w.component(d).Hard? && d != Original && d != Cover
  }

  lemma {:induction false} StoppedMeaning(r: Request, w: World, n: nat)
    requires n <= |ORDER|
    ensures StoppedWithin(r, w, n) <==> HardBefore(r, w, n)
  {
    if n > 0 {
      StoppedMeaning(r, w, n - 1);
      var c := ORDER[n - 1];
      assert Position(c) == n - 1;
      forall d | d in r.components && Position(d) < n ensures Position(d) < n - 1 || d == c { SamePosition(c, d); }
    }
  }

  lemma SamePosition(c: Component, d: Component)
    ensures Position(c) == Position(d) ==> c == d
    ensures ORDER[Position(c)] == c
  {
  }

  lemma {:induction false} ComponentEventsExactly(r: Request, w: World, n: nat, c: Component)
    requires n <= |ORDER|
    ensures ComponentRun(c) in ComponentEvents(r, w, n)
            <==> c in r.components && Position(c) < n && !HardBefore(r, w, Position(c))
  {
    if n > 0 {
      ComponentEventsExactly(r, w, n - 1, c);
      StoppedMeaning(r, w, n - 1);
      SamePosition(c, ORDER[n - 1]);
      SamePosition(ORDER[n - 1], c);
      assert Position(ORDER[n - 1]) == n - 1;
    }
  }

  lemma EditsRunNoComponents(steps: seq<Edit>, gate: bool, w: World, c: Component)
    ensures ComponentRun(c) !in EditEvents(steps, gate, w)
    decreases |steps|
  {
    if steps != [] { EditsRunNoComponents(steps[..|steps| - 1], gate, w, c); }
  }

  lemma OnlyTheFinishRunsComponents(r: Request, w: World, c: Component)
    ensures ComponentRun(c) in RunEvents(r, w)
            <==> w.opens && w.permission.Some? && !Aborted(Outcomes(StepsOf(r), GateOpen(r, w), w))
                 && ComponentRun(c) in ComponentEvents(r, w, |ORDER|)
  {
    var steps, gate, event := StepsOf(r), GateOpen(r, w), ComponentRun(c);
    EditsRunNoComponents(steps, gate, w, c);
    assert event !in SubmitEvents(w);
    assert event in FinishEvents(r, w, steps != []) <==> event in ComponentEvents(r, w, |ORDER|);
    assert event in StepEvents(steps, gate, r, w)
           <==> !Aborted(Outcomes(steps, gate, w)) && event in ComponentEvents(r, w, |ORDER|);
    if w.opens && w.permission.Some? {
      assert RunEvents(r, w) == [PermissionRead(w.permission)] + StepEvents(steps, gate, r, w);
    }
  }

  /** A component is tried exactly if it is requested, all edits were done, and nothing before it stopped the run. */
  lemma ComponentsExactly(r: Request, w: World, c: Component)
    ensures ComponentRun(c) in RunEvents(r, w)
            <==> w.opens && w.permission.Some? && EditsDone(r, w) && c in r.components && !HardBefore(r, w, Position(c))
  {
    OnlyTheFinishRunsComponents(r, w, c);
    ComponentEventsExactly(r, w, |ORDER|, c);
    EditsDoneExactly(r, w);
  }

  // ---- the order of a run ----

  /** The place of an act in a run that has begun: edits, components, topics, the second look at the permission, the click. */
  function Phase(event: Event): nat {
    match event
    case EditRun(e, _) => (match e case ImageRemove => 0 case ImageAdd => 1 case Title => 2 case Content => 3)
    case ComponentRun(c) => 4 + Position(c)
    case TopicsTyped => 10
    case PermissionRead(_) => 11
    case PublishClick => 12
  }

  /** The acts come in their order, none twice, and all of them in phases `lo` up to, but without, `hi`. */
  predicate InOrder(events: seq<Event>, lo: nat, hi: nat) {
    && (forall i | 0 <= i < |events| :: lo <= Phase(events[i]) < hi)
    && (forall i, j | 0 <= i < j < |events| :: Phase(events[i]) < Phase(events[j]))
  }

  lemma OrderJoins(a: seq<Event>, b: seq<Event>, lo: nat, mid: nat, hi: nat)
    requires InOrder(a, lo, mid) && InOrder(b, mid, hi) && lo <= mid <= hi
    ensures InOrder(a + b, lo, hi)
  {
    var c := a + b;
    forall i | 0 <= i < |c| ensures lo <= Phase(c[i]) < hi {
      if i < |a| { assert c[i] == a[i]; } else { assert c[i] == b[i - |a|]; }
    }
    forall i, j | 0 <= i < j < |c| ensures Phase(c[i]) < Phase(c[j]) {
      if j < |a| {
        assert c[i] == a[i] && c[j] == a[j];
      } else if i < |a| {
        assert c[i] == a[i] && c[j] == b[j - |a|];
      } else {
        assert c[i] == b[i - |a|] && c[j] == b[j - |a|];
      }
    }
  }

  function EditPhase(e: Edit): nat { Phase(EditRun(e, true)) }

  lemma {:induction false} EditsInOrder(steps: seq<Edit>, gate: bool, w: World, hi: nat)
    requires forall i | 0 <= i < |steps| :: EditPhase(steps[i]) < hi
    requires forall i, j | 0 <= i < j < |steps| :: EditPhase(steps[i]) < EditPhase(steps[j])
    ensures InOrder(EditEvents(steps, gate, w), 0, hi)
  {
    if steps != [] {
      var front, last := steps[..|steps| - 1], steps[|steps| - 1];
      EditsInOrder(front, gate, w, EditPhase(last));
      var o := Outcomes(steps, gate, w)[|front|];
      OrderJoins(EditEvents(front, gate, w), if o.Ran? then [EditRun(last, o.status == Done)] else [], 0, EditPhase(last), hi);
    }
  }

  lemma {:induction false} ComponentsInOrder(r: Request, w: World, n: nat)
    requires n <= |ORDER|
    ensures InOrder(ComponentEvents(r, w, n), 4, 4 + n)
  {
    if n > 0 {
      ComponentsInOrder(r, w, n - 1);
      var more := ComponentEvents(r, w, n)[|ComponentEvents(r, w, n - 1)|..];
      assert Position(ORDER[n - 1]) == n - 1;
      OrderJoins(ComponentEvents(r, w, n - 1), more, 4, 4 + n - 1, 4 + n);
    }
  }

  lemma SubmitInOrder(r: Request, w: World, submits: bool)
    ensures InOrder((if TypesTopics(r, w) then [TopicsTyped] else []) + if submits then SubmitEvents(w) else [], 10, 13)
  {
    var read, click := [PermissionRead(w.permissionAgain)], SubmitEvents(w)[1..];
    OrderJoins(read, click, 11, 12, 13);
    assert SubmitEvents(w) == read + click;
    OrderJoins(if TypesTopics(r, w) then [TopicsTyped] else [], if submits then SubmitEvents(w) else [], 10, 11, 13);
  }

  lemma FinishInOrder(r: Request, w: World, anyEdit: bool)
    ensures InOrder(FinishEvents(r, w, anyEdit), 4, 13)
  {
    ComponentsInOrder(r, w, |ORDER|);
    SubmitInOrder(r, w, anyEdit || Changes(r, w));
    OrderJoins(ComponentEvents(r, w, |ORDER|),
               if !Unstopped(r, w) then []
               else (if TypesTopics(r, w) then [TopicsTyped] else []) + if anyEdit || Changes(r, w) then SubmitEvents(w) else [],
               4, 10, 13);
  }

  /** A run looks at the permission first; whatever it does then it does in one fixed order, and nothing twice. */
  lemma RunInOrder(r: Request, w: World)
    requires w.opens
    ensures var log := RunEvents(r, w); log != [] && log[0] == PermissionRead(w.permission) && InOrder(log[1..], 0, 13)
  {
    if w.permission.Some? {
      var steps, gate := StepsOf(r), GateOpen(r, w);
      EditsInOrder(steps, gate, w, 4);
      FinishInOrder(r, w, steps != []);
      OrderJoins(EditEvents(steps, gate, w), if Aborted(Outcomes(steps, gate, w)) then [] else FinishEvents(r, w, steps != []), 0, 4, 13);
      assert RunEvents(r, w)[1..] == StepEvents(steps, gate, r, w);
    }
  }

  /** If all that succeeded were idempotent steps that found their goal reached, the note is not submitted. */
  lemma NothingChangedNothingSubmitted(r: Request, w: World)
    requires StepsOf(r) == [] && !TopicsChange(r, w)
    requires forall c <- r.components :: StatusOf(w.component(c)) == Error || (StatusOf(w.component(c)) == Skipped && Idempotent(c))
    ensures !Submits(r, w)
  {
  }
}

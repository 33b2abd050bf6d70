// The phase timeline of SessionStateStore (sdk/src/state.ts) and a listener
// that only applies its phaseChange events.
module Timeline {
  import opened Wrappers
  import opened Text

  datatype FileStatus = FilePending | FileGenerating | FileCompleted | FileCancelled

  datatype PhaseStatus = Pending | Generating | Implementing | Validating | Completed | Cancelled

  datatype FileConcept = FileConcept(path: string, purpose: string)

  datatype PhaseFile = PhaseFile(path: string, purpose: string, status: FileStatus)

  datatype PhaseInfo = PhaseInfo(id: string, name: string, description: string, status: PhaseStatus, files: seq<PhaseFile>)

  // A phase as the agent state stores it.
  datatype PhaseConcept = PhaseConcept(name: string, description: string, files: seq<FileConcept>, completed: bool)

  // `phasic` is isPhasicState; `generatedFiles` the paths in generatedFilesMap.
  datatype AgentState = AgentState(
    phasic: bool, generatedPhases: seq<PhaseConcept>, shouldBeGenerating: bool, generatedFiles: set<string>)

  // Messages that touch the timeline; a missing field is None.
  datatype Message =
    | FileGeneratingMsg(path: string)
    | FileGeneratedMsg(filePath: Option<string>)
    | PhaseMsg(step: PhaseStep, name: Option<string>, description: Option<string>, files: Option<seq<FileConcept>>)
    | AgentConnected(state: AgentState)
    | OtherMsg

  datatype PhaseStep = PhaseGenerating | PhaseGenerated | PhaseImplementing | PhaseImplemented | PhaseValidating | PhaseValidated

  datatype ChangeType = Added | Updated

  datatype TimelineEvent = TimelineEvent(kind: ChangeType, phase: PhaseInfo, allPhases: seq<PhaseInfo>)

  // ------------------------------------------------------------------
  // Phase ids
  // ------------------------------------------------------------------

  function PhaseId(index: nat): string {
    "phase-" + Decimal(index)
  }

  lemma PhaseIdInjective(i: nat, j: nat)
    ensures PhaseId(i) == PhaseId(j) <==> i == j
  {
    if PhaseId(i) == PhaseId(j) {
      assert PhaseId(i)[6..] == Decimal(i) && PhaseId(j)[6..] == Decimal(j);
      DecimalInjective(i, j);
    }
  }

  // Phase i of the timeline has id `phase-i`.
  ghost predicate Numbered(phases: seq<PhaseInfo>) {
    forall i :: 0 <= i < |phases| ==> phases[i].id == PhaseId(i)
  }

  // ------------------------------------------------------------------
  // The next timeline
  // ------------------------------------------------------------------

  function BuildPhase(phase: PhaseConcept, index: nat, state: AgentState): PhaseInfo {
    var status :=
      if phase.completed then Completed
      else if !state.shouldBeGenerating then Cancelled
      else Generating;
    var files := seq(|phase.files|, i requires 0 <= i < |phase.files| =>
      PhaseFile(phase.files[i].path, phase.files[i].purpose,
        if phase.files[i].path in state.generatedFiles then FileCompleted
        else if !state.shouldBeGenerating then FileCancelled
        else FilePending));
    PhaseInfo(PhaseId(index), phase.name, phase.description, status, files)
  }

  function BuildPhaseTimeline(state: AgentState): seq<PhaseInfo> {
    if !state.phasic then []
    else
      seq(|state.generatedPhases|, i requires 0 <= i < |state.generatedPhases| =>
        BuildPhase(state.generatedPhases[i], i, state))
  }

  function UpdateFileStatus(phases: seq<PhaseInfo>, filePath: string, status: FileStatus): seq<PhaseInfo> {
    seq(|phases|, i requires 0 <= i < |phases| => phases[i].(files := SetStatus(phases[i].files, filePath, status)))
  }

  function SetStatus(files: seq<PhaseFile>, filePath: string, status: FileStatus): seq<PhaseFile> {
    seq(|files|, i requires 0 <= i < |files| =>
      if files[i].path == filePath then files[i].(status := status) else files[i])
  }

  // findIndex by name: the first match, if any.
  function FindByName(phases: seq<PhaseInfo>, name: Option<string>): (r: Option<nat>)
    ensures r.Some? ==> r.value < |phases| && Some(phases[r.value].name) == name
  {
    if phases == [] then None
    else if Some(phases[0].name) == name then Some(0)
    else match FindByName(phases[1..], name)
      case None => None
      case Some(i) => Some(i + 1)
  }

  function Ids(phases: seq<PhaseInfo>): (r: seq<string>)
    ensures |r| == |phases| && forall i :: 0 <= i < |phases| ==> r[i] == phases[i].id
  {
    seq(|phases|, i requires 0 <= i < |phases| => phases[i].id)
  }

  function FindById(phases: seq<PhaseInfo>, id: string): (r: Option<nat>)
    ensures r.Some? ==> r.value < |phases| && phases[r.value].id == id
    ensures r.None? ==> forall i :: 0 <= i < |phases| ==> phases[i].id != id
  {
    IndexOf(Ids(phases), id)
  }

  function FreshFiles(concepts: Option<seq<FileConcept>>, status: PhaseStatus): seq<PhaseFile> {
    if concepts.None? then []
    else
      seq(|concepts.value|, i requires 0 <= i < |concepts.value| =>
        PhaseFile(concepts.value[i].path, concepts.value[i].purpose,
          if status == Completed then FileCompleted else FilePending))
  }

  function UpdateOrAddPhase(phases: seq<PhaseInfo>, name: Option<string>, description: Option<string>,
                            status: PhaseStatus, concepts: Option<seq<FileConcept>>): seq<PhaseInfo>
  {
    var files := FreshFiles(concepts, status);
    match FindByName(phases, name)
    case Some(i) =>
      var current := phases[i];
      phases[i := current.(
        status := status,
        description := if description.Some? then description.value else current.description,
        files := if |files| > 0 then files else current.files)]
    case None =>
      if name.None? || name.value == "" then phases
      else
        phases + [PhaseInfo(PhaseId(|phases|), name.value,
                            if description.Some? then description.value else "", status, files)]
  }

  // The timeline status that each phase message leads to.
  function StatusAfter(step: PhaseStep): PhaseStatus {
    match step
    case PhaseGenerating => Generating
    case PhaseGenerated => Implementing
    case PhaseImplementing => Implementing
    case PhaseImplemented => Validating
    case PhaseValidating => Validating
    case PhaseValidated => Completed
  }

  function NextPhases(phases: seq<PhaseInfo>, msg: Message): seq<PhaseInfo> {
    match msg
    case FileGeneratingMsg(path) => UpdateFileStatus(phases, path, FileGenerating)
    case FileGeneratedMsg(path) =>
      if path.None? || path.value == "" then phases else UpdateFileStatus(phases, path.value, FileCompleted)
    case PhaseMsg(step, name, description, files) =>
      UpdateOrAddPhase(phases, name, description, StatusAfter(step), files)
    case AgentConnected(state) => BuildPhaseTimeline(state)
    case OtherMsg => phases
  }

  // Every message keeps phase i at id `phase-i`.
  lemma NumberedStep(phases: seq<PhaseInfo>, msg: Message)
    requires Numbered(phases)
    ensures Numbered(NextPhases(phases, msg))
  {
    hide PhaseId, FindByName;
  }

  // A phase message touches the first phase of its name and no other, or
  // appends one; it never drops a file list in favour of none.
  lemma PhaseMessageEffect(phases: seq<PhaseInfo>, step: PhaseStep, name: string, description: Option<string>,
                           files: Option<seq<FileConcept>>, i: nat)
    requires name != "" && i <= |phases|
    requires forall j :: 0 <= j < i ==> phases[j].name != name
    requires i < |phases| ==> phases[i].name == name
    ensures
      var next := NextPhases(phases, PhaseMsg(step, Some(name), description, files));
      && |next| == (if i < |phases| then |phases| else |phases| + 1)
      && (forall j :: 0 <= j < |phases| && j != i ==> next[j] == phases[j])
      && next[i].name == name
      && next[i].status == (match step
           case PhaseGenerating => Generating
           case PhaseGenerated => Implementing
           case PhaseImplementing => Implementing
           case PhaseImplemented => Validating
           case PhaseValidating => Validating
           case PhaseValidated => Completed)
      && next[i].description ==
           (if description.Some? then description.value else if i < |phases| then phases[i].description else "")
      && (files == None || files == Some([]) ==> next[i].files == if i < |phases| then phases[i].files else [])
      && (files == None && i < |phases| ==> next[i].files == phases[i].files)
      && (files.Some? && files.value != [] ==>
            |next[i].files| == |files.value| &&
            forall k :: 0 <= k < |files.value| ==>
              && next[i].files[k].path == files.value[k].path && next[i].files[k].purpose == files.value[k].purpose
              && next[i].files[k].status == if step == PhaseValidated then FileCompleted else FilePending)
  {
    hide PhaseId;
    FirstByName(phases, name, i);
  }

  lemma {:induction false} FirstByName(phases: seq<PhaseInfo>, name: string, i: nat)
    requires i <= |phases|
    requires forall j :: 0 <= j < i ==> phases[j].name != name
    requires i < |phases| ==> phases[i].name == name
    ensures FindByName(phases, Some(name)) == if i < |phases| then Some(i) else None
  {
    if i > 0 {
      FirstByName(phases[1..], name, i - 1);
    }
  }

  lemma {:induction false} FindAfterUpdate(phases: seq<PhaseInfo>, name: Option<string>, i: nat, p: PhaseInfo)
    requires FindByName(phases, name) == Some(i) && i < |phases| && p.name == phases[i].name
    ensures FindByName(phases[i := p], name) == Some(i)
  {
    if i > 0 {
      FindAfterUpdate(phases[1..], name, i - 1, p);
      assert phases[i := p][1..] == phases[1..][i - 1 := p];
    }
  }

  lemma {:induction false} FindAfterPush(phases: seq<PhaseInfo>, name: Option<string>, p: PhaseInfo)
    requires FindByName(phases, name) == None && Some(p.name) == name
    ensures FindByName(phases + [p], name) == Some(|phases|)
  {
    if phases != [] {
      assert (phases + [p])[1..] == phases[1..] + [p];
      FindAfterPush(phases[1..], name, p);
    }
  }

  // File messages change the status of exactly the files at their path, in every
  // phase, and the last message about a path decides.
  lemma FileMessageEffect(phases: seq<PhaseInfo>, path: string, i: nat, j: nat)
    requires path != "" && i < |phases| && j < |phases[i].files|
    ensures
      var busy := NextPhases(phases, FileGeneratingMsg(path));
      var ready := NextPhases(busy, FileGeneratedMsg(Some(path)));
      && |ready| == |busy| == |phases| && |ready[i].files| == |busy[i].files| == |phases[i].files|
      && busy[i].files[j] == phases[i].files[j].(
           status := if phases[i].files[j].path == path then FileGenerating else phases[i].files[j].status)
      && ready[i].files[j] == phases[i].files[j].(
           status := if phases[i].files[j].path == path then FileCompleted else phases[i].files[j].status)
      && ready[i] == busy[i].(files := ready[i].files) && busy[i] == phases[i].(files := busy[i].files)
      && ready == NextPhases(phases, FileGeneratedMsg(Some(path)))
  {
    var busy := NextPhases(phases, FileGeneratingMsg(path));
    forall k | 0 <= k < |phases|
      ensures SetStatus(busy[k].files, path, FileCompleted) == SetStatus(phases[k].files, path, FileCompleted)
    {
    }
  }

  // A timeline rebuilt from the agent's state shows activity only while the agent
  // should be generating, and completes exactly what the state says is complete.
  lemma RebuiltTimeline(phases: seq<PhaseInfo>, state: AgentState, i: nat)
    ensures |NextPhases(phases, AgentConnected(state))| == if state.phasic then |state.generatedPhases| else 0
    ensures i < |NextPhases(phases, AgentConnected(state))| ==>
      var next := NextPhases(phases, AgentConnected(state));
      var stored := state.generatedPhases;
      && |next[i].files| == |stored[i].files|
      && next[i].name == stored[i].name && next[i].description == stored[i].description
      && (next[i].status == Completed <==> stored[i].completed)
      && (next[i].status == Generating <==> !stored[i].completed && state.shouldBeGenerating)
      && (next[i].status == Cancelled <==> !stored[i].completed && !state.shouldBeGenerating)
      && (forall j :: 0 <= j < |stored[i].files| ==>
            var file, concept := next[i].files[j], stored[i].files[j];
            && file.path == concept.path && file.purpose == concept.purpose
            && (file.status == FileCompleted <==> concept.path in state.generatedFiles)
            && (file.status == FilePending <==> concept.path !in state.generatedFiles && state.shouldBeGenerating)
            && (file.status == FileCancelled <==> concept.path !in state.generatedFiles && !state.shouldBeGenerating))
  {
  }

  lemma UpdateFileTwice(phases: seq<PhaseInfo>, path: string, status: FileStatus)
    ensures var next := UpdateFileStatus(phases, path, status);
      UpdateFileStatus(next, path, status) == next
  {
    var next := UpdateFileStatus(phases, path, status);
    forall i | 0 <= i < |phases| ensures SetStatus(next[i].files, path, status) == next[i].files {
    }
  }

  // A message delivered twice changes nothing the second time.
  lemma DeliveredTwice(phases: seq<PhaseInfo>, msg: Message)
    ensures NextPhases(NextPhases(phases, msg), msg) == NextPhases(phases, msg)
  {
    hide PhaseId;
    if msg.FileGeneratingMsg? {
      UpdateFileTwice(phases, msg.path, FileGenerating);
    } else if msg.FileGeneratedMsg? && msg.filePath.Some? {
      UpdateFileTwice(phases, msg.filePath.value, FileCompleted);
    } else if msg.PhaseMsg? {
      var next := NextPhases(phases, msg);
      match FindByName(phases, msg.name) {
        case Some(i) =>
          FindAfterUpdate(phases, msg.name, i, next[i]);
          assert next[i := next[i]] == next;
        case None =>
          if !(msg.name.None? || msg.name.value == "") {
            FindAfterPush(phases, msg.name, next[|phases|]);
            assert next[|phases| := next[|phases|]] == next;
          }
      }
    }
  }

  // ------------------------------------------------------------------
  // Change events
  // ------------------------------------------------------------------

  // What a phaseChange event is about: status and file statuses.
  ghost predicate Same(a: PhaseInfo, b: PhaseInfo) {
    && a.status == b.status && |a.files| == |b.files|
    && (forall i :: 0 <= i < |a.files| ==> a.files[i].status == b.files[i].status)
  }

  method HasPhaseChanged(prev: PhaseInfo, next: PhaseInfo) returns (changed: bool)
    ensures changed <==> !Same(prev, next)
    ensures !changed <==>
      && prev.status == next.status && |prev.files| == |next.files|
      && forall i :: 0 <= i < |prev.files| ==> prev.files[i].status == next.files[i].status
  {
    if prev.status != next.status { return true; }
    if |prev.files| != |next.files| { return true; }
    var i := 0;
    while i < |prev.files|
      invariant 0 <= i <= |prev.files|
      invariant forall j :: 0 <= j < i ==> prev.files[j].status == next.files[j].status
    {
      if prev.files[i].status != next.files[i].status { return true; }
      i := i + 1;
    }
    return false;
  }

  ghost function ChangeOf(prev: seq<PhaseInfo>, phase: PhaseInfo, all: seq<PhaseInfo>): seq<TimelineEvent> {
    match FindById(prev, phase.id)
    case None => [TimelineEvent(Added, phase, all)]
    case Some(i) => if Same(prev[i], phase) then [] else [TimelineEvent(Updated, phase, all)]
  }

  ghost function Changes(prev: seq<PhaseInfo>, next: seq<PhaseInfo>, all: seq<PhaseInfo>): seq<TimelineEvent> {
    if next == [] then []
    else Changes(prev, next[..|next| - 1], all) + ChangeOf(prev, next[|next| - 1], all)
  }

  lemma ChangesNext(prev: seq<PhaseInfo>, next: seq<PhaseInfo>, i: nat, all: seq<PhaseInfo>)
    requires i < |next|
    ensures Changes(prev, next[..i + 1], all) == Changes(prev, next[..i], all) + ChangeOf(prev, next[i], all)
  {
    assert next[..i + 1][..i] == next[..i];
  }

  lemma Regroup(a: seq<TimelineEvent>, b: seq<TimelineEvent>, c: seq<TimelineEvent>)
    ensures (a + b) + c == a + (b + c)
  {
  }

  class SessionStateStore {
    var phases: seq<PhaseInfo>
    var emitted: seq<TimelineEvent>  // delivered to a listener subscribed from the start

    constructor ()
      ensures phases == [] && emitted == []
    {
      phases, emitted := [], [];
    }

    method EmitPhaseChanges(prevPhases: seq<PhaseInfo>, nextPhases: seq<PhaseInfo>)
      modifies this`emitted
      ensures emitted == old(emitted) + Changes(prevPhases, nextPhases, nextPhases)
    {
      var i := 0;
      assert nextPhases[..0] == [] && emitted == emitted + Changes(prevPhases, [], nextPhases);
      hide FindById, Same, Changes;
      while i < |nextPhases|
        invariant 0 <= i <= |nextPhases|
        invariant emitted == old(emitted) + Changes(prevPhases, nextPhases[..i], nextPhases)
      {
        ghost var before := emitted;
        var phase := nextPhases[i];
        ChangesNext(prevPhases, nextPhases, i, nextPhases);
        var found := FindById(prevPhases, phase.id);
        if found.None? {
          emitted := emitted + [TimelineEvent(Added, phase, nextPhases)];
        } else {
          var changed := HasPhaseChanged(prevPhases[found.value], phase);
          if changed {
            emitted := emitted + [TimelineEvent(Updated, phase, nextPhases)];
          }
        }
        ghost var change := ChangeOf(prevPhases, phase, nextPhases);
        assert emitted == before + change;
        hide ChangeOf;
        Regroup(old(emitted), Changes(prevPhases, nextPhases[..i], nextPhases), change);
        i := i + 1;
      }
      assert nextPhases[..i] == nextPhases;
    }

    method ApplyWsMessage(msg: Message)
      modifies this
      ensures phases == NextPhases(old(phases), msg)
      ensures emitted == old(emitted) + Changes(old(phases), phases, phases)
    {
      var prev := phases;
      phases := NextPhases(prev, msg);
      EmitPhaseChanges(prev, phases);
    }
  }

  // ------------------------------------------------------------------
  // The replica
  // ------------------------------------------------------------------

  type Replica = map<string, PhaseInfo>

  // What a listener does: remember the phase of each event under its id.
  ghost function Apply(r: Replica, events: seq<TimelineEvent>): Replica {
    if events == [] then r
    else
      var e := events[|events| - 1];
      Apply(r, events[..|events| - 1])[e.phase.id := e.phase]
  }

  lemma {:induction false} ApplyAppend(r: Replica, a: seq<TimelineEvent>, b: seq<TimelineEvent>)
    ensures Apply(r, a + b) == Apply(Apply(r, a), b)
  {
    if b == [] {
      assert a + b == a;
    } else {
      var c := b[..|b| - 1];
      assert (a + b)[..|a + b| - 1] == a + c;
      ApplyAppend(r, a, c);
    }
  }

  ghost predicate Agrees(r: Replica, phases: seq<PhaseInfo>) {
    forall i :: 0 <= i < |phases| ==> phases[i].id in r && Same(r[phases[i].id], phases[i])
  }

  // What the replica holds after the change events of the first `k` phases.
  lemma {:induction false} AfterChanges(r: Replica, prev: seq<PhaseInfo>, next: seq<PhaseInfo>, all: seq<PhaseInfo>, i: nat)
    requires Numbered(prev) && Numbered(next)
    ensures
      var id, after := PhaseId(i), Apply(r, Changes(prev, next, all));
      if i < |next| && (i >= |prev| || !Same(prev[i], next[i])) then id in after && after[id] == next[i]
      else (id in after <==> id in r) && (id in r ==> after[id] == r[id])
  {
    hide PhaseId, Same, FindById;
    if next != [] {
      var k := |next| - 1;
      var before := next[..k];
      assert forall j :: 0 <= j < k ==> before[j] == next[j];
      AfterChanges(r, prev, before, all, i);
      PhaseIdInjective(i, k);
      ChangeStep(r, prev, next, all);
      hide Apply, Changes;
    }
  }

  // The events of the last phase come last, and there is at most one.
  lemma ChangeStep(r: Replica, prev: seq<PhaseInfo>, next: seq<PhaseInfo>, all: seq<PhaseInfo>)
    requires Numbered(prev) && Numbered(next) && next != []
    ensures
      var k := |next| - 1;
      var mid := Apply(r, Changes(prev, next[..k], all));
      Apply(r, Changes(prev, next, all))
      == if k >= |prev| || !Same(prev[k], next[k]) then mid[PhaseId(k) := next[k]] else mid
  {
    hide PhaseId, Same, FindById;
    var k := |next| - 1;
    var change := ChangeOf(prev, next[k], all);
    ApplyAppend(r, Changes(prev, next[..k], all), change);
    FoundAt(prev, k);
    if change != [] {
      assert change[..0] == [];
    }
  }

  lemma FoundAt(prev: seq<PhaseInfo>, k: nat)
    requires Numbered(prev)
    ensures FindById(prev, PhaseId(k)) == if k < |prev| then Some(k) else None
  {
    hide PhaseId;
    var found := FindById(prev, PhaseId(k));
    if found.Some? {
      PhaseIdInjective(found.value, k);
    }
  }

  ghost predicate Changed(prev: seq<PhaseInfo>, next: seq<PhaseInfo>, i: nat)
    requires i < |next|
  {
    i >= |prev| || !Same(prev[i], next[i])
  }

  // The event for phase `i`, if there is one.
  function EventFor(prev: seq<PhaseInfo>, next: seq<PhaseInfo>, i: nat, all: seq<PhaseInfo>): TimelineEvent
    requires i < |next|
  {
    TimelineEvent(if i < |prev| then Updated else Added, next[i], all)
  }

  lemma ChangeOfIs(prev: seq<PhaseInfo>, next: seq<PhaseInfo>, i: nat, all: seq<PhaseInfo>)
    requires Numbered(prev) && Numbered(next) && i < |next|
    ensures ChangeOf(prev, next[i], all) == if Changed(prev, next, i) then [EventFor(prev, next, i, all)] else []
  {
    hide PhaseId, Same, FindById;
    FoundAt(prev, i);
  }

  lemma NextEvents(prev: seq<PhaseInfo>, next: seq<PhaseInfo>, k: nat, all: seq<PhaseInfo>)
    requires Numbered(prev) && Numbered(next) && k < |next|
    ensures Changes(prev, next[..k + 1], all)
         == Changes(prev, next[..k], all) + if Changed(prev, next, k) then [EventFor(prev, next, k, all)] else []
  {
    ChangesNext(prev, next, k, all);
    ChangeOfIs(prev, next, k, all);
  }

  lemma DifferentEvents(prev: seq<PhaseInfo>, next: seq<PhaseInfo>, i: nat, k: nat, all: seq<PhaseInfo>)
    requires Numbered(next) && i < |next| && k < |next| && i != k
    ensures EventFor(prev, next, i, all) != EventFor(prev, next, k, all)
  {
    hide PhaseId;
    PhaseIdInjective(i, k);
    assert next[i].id != next[k].id;
  }

  lemma {:induction false} EventUpTo(prev: seq<PhaseInfo>, next: seq<PhaseInfo>, n: nat, all: seq<PhaseInfo>, i: nat)
    requires Numbered(prev) && Numbered(next) && n <= |next| && i < |next|
    ensures EventFor(prev, next, i, all) in Changes(prev, next[..n], all) <==> i < n && Changed(prev, next, i)
  {
    hide Numbered, Changed, EventFor, ChangeOf;
    if n > 0 {
      EventUpTo(prev, next, n - 1, all, i);
      NextEvents(prev, next, n - 1, all);
      if i != n - 1 {
        DifferentEvents(prev, next, i, n - 1, all);
      }
    } else {
      assert next[..0] == [];
    }
  }

  // The positions of the first `n` phases that change.
  ghost function ChangedUpTo(prev: seq<PhaseInfo>, next: seq<PhaseInfo>, n: nat): set<nat>
    requires n <= |next|
  {
    if n == 0 then {}
    else ChangedUpTo(prev, next, n - 1) + if Changed(prev, next, n - 1) then {n - 1} else {}
  }

  lemma {:induction false} EventsCount(prev: seq<PhaseInfo>, next: seq<PhaseInfo>, n: nat, all: seq<PhaseInfo>)
    requires Numbered(prev) && Numbered(next) && n <= |next|
    ensures |Changes(prev, next[..n], all)| == |ChangedUpTo(prev, next, n)|
    ensures forall i :: i in ChangedUpTo(prev, next, n) <==> 0 <= i < n && Changed(prev, next, i)
  {
    hide Numbered, Changed, EventFor, ChangeOf;
    if n > 0 {
      EventsCount(prev, next, n - 1, all);
      NextEvents(prev, next, n - 1, all);
    } else {
      assert next[..0] == [];
    }
  }

  // One change: a phase that is new or differs has an event with the new phase
  // and the whole new timeline, `added` exactly if the old timeline does not have
  // it; and there are no other events.
  lemma EventsExactly(prev: seq<PhaseInfo>, next: seq<PhaseInfo>, i: nat)
    requires Numbered(prev) && Numbered(next) && i < |next|
    ensures TimelineEvent(if i < |prev| then Updated else Added, next[i], next) in Changes(prev, next, next)
       <==> i >= |prev| || !Same(prev[i], next[i])
    ensures |Changes(prev, next, next)| == |ChangedUpTo(prev, next, |next|)|
    ensures forall j :: j in ChangedUpTo(prev, next, |next|) <==>
      0 <= j < |next| && (j >= |prev| || !Same(prev[j], next[j]))
  {
    EventUpTo(prev, next, |next|, next, i);
    EventsCount(prev, next, |next|, next);
    assert next[..|next|] == next;
    hide Changes, Numbered, Same;
  }

  lemma ReplicaStep(r: Replica, prev: seq<PhaseInfo>, next: seq<PhaseInfo>)
    requires Numbered(prev) && Numbered(next) && Agrees(r, prev)
    ensures Agrees(Apply(r, Changes(prev, next, next)), next)
  {
    hide PhaseId;
    var after := Apply(r, Changes(prev, next, next));
    forall i | 0 <= i < |next| ensures next[i].id in after && Same(after[next[i].id], next[i]) {
      AfterChanges(r, prev, next, next, i);
      assert i < |prev| ==> prev[i].id in r && Same(r[prev[i].id], prev[i]);
    }
  }

  // The store after a run of messages, and all events it emitted.
  ghost function Phases(messages: seq<Message>): seq<PhaseInfo> {
    if messages == [] then [] else NextPhases(Phases(messages[..|messages| - 1]), messages[|messages| - 1])
  }

  ghost function Emitted(messages: seq<Message>): seq<TimelineEvent> {
    if messages == [] then []
    else
      var before := messages[..|messages| - 1];
      Emitted(before) + Changes(Phases(before), Phases(messages), Phases(messages))
  }

  // After every run of messages a listener subscribed from the start agrees
  // with the store on the status and the file statuses of every phase in it.
  lemma ReplicaTracks(messages: seq<Message>, i: nat)
    requires i < |Phases(messages)|
    ensures
      var replica, phase := Apply(map[], Emitted(messages)), Phases(messages)[i];
      && phase.id == PhaseId(i) && phase.id in replica
      && replica[phase.id].status == phase.status
      && |replica[phase.id].files| == |phase.files|
      && forall j :: 0 <= j < |phase.files| ==> replica[phase.id].files[j].status == phase.files[j].status
  {
    ReplicaAgrees(messages);
    hide Phases, Emitted, PhaseId;
  }

  lemma {:induction false} ReplicaAgrees(messages: seq<Message>)
    ensures Numbered(Phases(messages))
    ensures Agrees(Apply(map[], Emitted(messages)), Phases(messages))
  {
    hide Numbered, Agrees, NextPhases;
    if messages == [] {
      NothingYet();
    } else {
      var before := messages[..|messages| - 1];
      ReplicaAgrees(before);
      NumberedStep(Phases(before), messages[|messages| - 1]);
      ApplyAppend(map[], Emitted(before), Changes(Phases(before), Phases(messages), Phases(messages)));
      ReplicaStep(Apply(map[], Emitted(before)), Phases(before), Phases(messages));
    }
  }

  lemma NothingYet()
    ensures Numbered([]) && Agrees(map[], [])
  {
  }

  // Names, descriptions and paths are not tracked: the replica may differ from
  // the store in them.
  ghost predicate Equal(r: Replica, phases: seq<PhaseInfo>) {
    forall i :: 0 <= i < |phases| ==> phases[i].id in r && r[phases[i].id] == phases[i]
  }

  // A kept phase changes only in what the change check ignores.
  ghost predicate Silent(prev: seq<PhaseInfo>, next: seq<PhaseInfo>) {
    exists i :: 0 <= i < |prev| && i < |next| && Same(prev[i], next[i]) && prev[i] != next[i]
  }

  // A replica equal to the store is equal after the next change exactly when
  // that change is not silent.
  lemma EqualStep(r: Replica, prev: seq<PhaseInfo>, next: seq<PhaseInfo>)
    requires Numbered(prev) && Numbered(next) && Equal(r, prev)
    ensures Equal(Apply(r, Changes(prev, next, next)), next) <==> !Silent(prev, next)
  {
    hide PhaseId, Same;
    var after := Apply(r, Changes(prev, next, next));
    forall i | 0 <= i < |next| ensures
      (next[i].id in after && after[next[i].id] == next[i]) <==>
      (i < |prev| && Same(prev[i], next[i]) ==> prev[i] == next[i])
    {
      AfterChanges(r, prev, next, next, i);
      assert i < |prev| ==> prev[i].id in r && r[prev[i].id] == prev[i];
    }
  }

  ghost function ReplicaOf(messages: seq<Message>): Replica {
    Apply(map[], Emitted(messages))
  }

  // The changes of message k and the ones before it.
  lemma EqualAfterMessage(messages: seq<Message>, k: nat)
    requires k < |messages| && Equal(ReplicaOf(messages[..k]), Phases(messages[..k]))
    ensures Equal(ReplicaOf(messages[..k + 1]), Phases(messages[..k + 1]))
       <==> !Silent(Phases(messages[..k]), Phases(messages[..k + 1]))
  {
    hide Numbered, Equal, Silent, NextPhases, Agrees;
    var prev, next := Phases(messages[..k]), Phases(messages[..k + 1]);
    assert messages[..k + 1][..k] == messages[..k];
    ReplicaAgrees(messages[..k]);
    ReplicaAgrees(messages[..k + 1]);
    ApplyAppend(map[], Emitted(messages[..k]), Changes(prev, next, next));
    EqualStep(ReplicaOf(messages[..k]), prev, next);
  }

  lemma {:induction false} EqualWithoutSilence(messages: seq<Message>, k: nat)
    requires k <= |messages|
    requires forall j :: 0 <= j < k ==> !Silent(Phases(messages[..j]), Phases(messages[..j + 1]))
    ensures Equal(ReplicaOf(messages[..k]), Phases(messages[..k]))
  {
    hide Silent;
    if k > 0 {
      EqualWithoutSilence(messages, k - 1);
      hide *;
      EqualAfterMessage(messages, k - 1);
    }
  }

  // Over a whole run from the start: the replica equals the store at every moment
  // exactly when no message changes a phase silently.
  lemma ReplicaExactly(messages: seq<Message>)
    ensures (forall k :: 0 <= k <= |messages| ==> Equal(ReplicaOf(messages[..k]), Phases(messages[..k])))
       <==> (forall k :: 0 <= k < |messages| ==> !Silent(Phases(messages[..k]), Phases(messages[..k + 1])))
  {
    hide *;
    if forall k :: 0 <= k < |messages| ==> !Silent(Phases(messages[..k]), Phases(messages[..k + 1])) {
      forall k | 0 <= k <= |messages| ensures Equal(ReplicaOf(messages[..k]), Phases(messages[..k])) {
        EqualWithoutSilence(messages, k);
      }
    } else {
      var k :| 0 <= k < |messages| && Silent(Phases(messages[..k]), Phases(messages[..k + 1]));
      if Equal(ReplicaOf(messages[..k]), Phases(messages[..k])) {
        EqualAfterMessage(messages, k);
      }
    }
  }

  // It happens: a second phase_implementing message renames the phase's only
  // file, and no event is emitted.
  lemma PathChangeIsSilent()
    ensures
      var first := PhaseMsg(PhaseImplementing, Some("core"), None, Some([FileConcept("a.ts", "")]));
      var second := PhaseMsg(PhaseImplementing, Some("core"), None, Some([FileConcept("b.ts", "")]));
      var prev := NextPhases([], first);
      var next := NextPhases(prev, second);
      && |prev| == 1 && |next| == 1 && prev[0].files[0].path == "a.ts" && next[0].files[0].path == "b.ts"
      && Changes(prev, next, next) == []
  {
    var first := PhaseMsg(PhaseImplementing, Some("core"), None, Some([FileConcept("a.ts", "")]));
    var second := PhaseMsg(PhaseImplementing, Some("core"), None, Some([FileConcept("b.ts", "")]));
    var prev := NextPhases([], first);
    var next := NextPhases(prev, second);
    assert FreshFiles(first.files, Implementing) == [PhaseFile("a.ts", "", FilePending)];
    assert FreshFiles(second.files, Implementing) == [PhaseFile("b.ts", "", FilePending)];
    var phase := PhaseInfo(PhaseId(0), "core", "", Implementing, [PhaseFile("a.ts", "", FilePending)]);
    assert prev == [] + [phase] == [phase];
    assert next == [phase.(files := [PhaseFile("b.ts", "", FilePending)])];
    assert next[..0] == [] && Changes(prev, [], next) == [];
  }
}

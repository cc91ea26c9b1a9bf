/**
 * Onboarding and offboarding checklists of the HR add-on (`odhr_hr/models/onboarding.py` and
 * `odhr_hr/models/offboarding.py`, which differ only in their model names): the state defaults,
 * the three unguarded state actions, and the progress by finished tasks. A checklist is an object
 * whose fields the actions assign; an action runs over a record set, here a sequence of them.
 */
module Checklists {
  /** Which of the two identical models a record belongs to. */
  datatype Flow = Onboarding | Offboarding

  function ChecklistModel(f: Flow): string {
    match f
    case Onboarding => "odhr.onboarding.checklist"
    case Offboarding => "odhr.offboarding.checklist"
  }

  function TaskModel(f: Flow): string {
    match f
    case Onboarding => "odhr.onboarding.task"
    case Offboarding => "odhr.offboarding.task"
  }

  datatype ChecklistState = Draft | InProgress | Done | Cancel
  datatype TaskState = Todo | Doing | Finished

  /** A task as the checklist sees it. */
  datatype Task = Task(name: string, sequence: int, state: TaskState)

  /** A new task: sequence 10, state `todo`. */
  function NewTask(name: string): (t: Task)
    ensures t.name == name && t.sequence == 10 && t.state == Todo
  {
    Task(name, 10, Todo)
  }

  /** The number of finished tasks. */
  function DoneCount(tasks: seq<Task>): (n: nat)
    ensures n <= |tasks|
    ensures n == |tasks| <==> forall i :: 0 <= i < |tasks| ==> tasks[i].state == Finished
  {
    if tasks == [] then 0
    else DoneCount(tasks[..|tasks| - 1]) + (if tasks[|tasks| - 1].state == Finished then 1 else 0)
  }

  /** `_compute_progress` for one checklist: 0 without tasks, else the finished share in percent. */
  function Progress(tasks: seq<Task>): real {
    if |tasks| == 0 then 0.0 else 100.0 * (DoneCount(tasks) as real) / (|tasks| as real)
  }

  lemma Share(d: nat, t: nat)
    requires 0 < t && d <= t
    ensures 0.0 <= 100.0 * (d as real) / (t as real) <= 100.0
    ensures 100.0 * (d as real) / (t as real) == 100.0 <==> d == t
  {
    var q := 100.0 * (d as real) / (t as real);
    var tr := t as real;
    assert q * tr == 100.0 * (d as real);
    assert (q - 100.0) * tr == 100.0 * ((d as real) - tr);
    if q == 100.0 {
      assert 100.0 * ((d as real) - tr) == 0.0;
    }
    if d == t {
      assert (q - 100.0) * tr == 0.0;
    }
  }

  /** Progress lies within [0, 100], is 0 without tasks, and is 100 exactly when there are tasks and
    * every one is finished. */
  lemma ProgressBounds(tasks: seq<Task>)
    ensures 0.0 <= Progress(tasks) <= 100.0
    ensures tasks == [] ==> Progress(tasks) == 0.0
    ensures Progress(tasks) == 100.0 <==> tasks != [] && forall i :: 0 <= i < |tasks| ==> tasks[i].state == Finished
  {
    if tasks != [] {
      Share(DoneCount(tasks), |tasks|);
    }
  }

  class Checklist {
    const flow: Flow
    var name: string
    var employee: nat
    var state: ChecklistState
    var tasks: seq<Task>
    var progress: real

    /** A new checklist starts in `draft` with no tasks. */
    constructor (flow: Flow, name: string, employee: nat)
      ensures this.flow == flow && this.name == name && this.employee == employee
      ensures state == Draft && tasks == [] && progress == 0.0
    {
      this.flow := flow;
      this.name := name;
      this.employee := employee;
      state := Draft;
      tasks := [];
      progress := 0.0;
    }
  }

  /** The loop shared by the three actions: every record gets the state, whatever it had, and
    * nothing else changes. */
  method SetState(recs: seq<Checklist>, s: ChecklistState)
    modifies set r | r in recs
    ensures forall r :: r in recs ==> r.state == s
    ensures forall r :: r in recs ==>
              (r.name == old(r.name) && r.employee == old(r.employee) && r.tasks == old(r.tasks) && r.progress == old(r.progress))
  {
    for i := 0 to |recs|
      invariant forall j :: 0 <= j < i ==> recs[j].state == s
      invariant forall r :: r in recs ==>
                  (r.name == old(r.name) && r.employee == old(r.employee) && r.tasks == old(r.tasks) && r.progress == old(r.progress))
    {
      recs[i].state := s;
    }
  }

  /** `action_start`. */
  method ActionStart(recs: seq<Checklist>) returns (ok: bool)
    modifies set r | r in recs
    ensures ok && forall r :: r in recs ==> r.state == InProgress
    ensures forall r :: r in recs ==> r.tasks == old(r.tasks) && r.progress == old(r.progress)
    ensures forall r :: r in recs ==> r.name == old(r.name) && r.employee == old(r.employee)
  {
    SetState(recs, InProgress);
    return true;
  }

  /** `action_done`: also from `cancel` or `draft`; the tasks' states are not consulted. */
  method ActionDone(recs: seq<Checklist>) returns (ok: bool)
    modifies set r | r in recs
    ensures ok && forall r :: r in recs ==> r.state == Done
    ensures forall r :: r in recs ==> r.tasks == old(r.tasks) && r.progress == old(r.progress)
    ensures forall r :: r in recs ==> r.name == old(r.name) && r.employee == old(r.employee)
  {
    SetState(recs, Done);
    return true;
  }

  /** `action_cancel`: also from `done`. */
  method ActionCancel(recs: seq<Checklist>) returns (ok: bool)
    modifies set r | r in recs
    ensures ok && forall r :: r in recs ==> r.state == Cancel
    ensures forall r :: r in recs ==> r.tasks == old(r.tasks) && r.progress == old(r.progress)
    ensures forall r :: r in recs ==> r.name == old(r.name) && r.employee == old(r.employee)
  {
    SetState(recs, Cancel);
    return true;
  }

  /** `_compute_progress` over a record set. */
  method ComputeProgress(recs: seq<Checklist>)
    modifies set r | r in recs
    ensures forall r :: r in recs ==> r.progress == Progress(r.tasks)
    ensures forall r :: r in recs ==> 0.0 <= r.progress <= 100.0
    ensures forall r :: r in recs ==> r.state == old(r.state) && r.tasks == old(r.tasks)
    ensures forall r :: r in recs ==> r.name == old(r.name) && r.employee == old(r.employee)
  {
    for i := 0 to |recs|
      invariant forall j :: 0 <= j < i ==> recs[j].progress == Progress(recs[j].tasks)
      invariant forall r :: r in recs ==> r.state == old(r.state) && r.tasks == old(r.tasks)
      invariant forall r :: r in recs ==> r.name == old(r.name) && r.employee == old(r.employee)
    {
      var rec := recs[i];
      var total := |rec.tasks|;
      if total == 0 {
        rec.progress := 0.0;
        continue;
      }
      var done := DoneCount(rec.tasks);
      rec.progress := 100.0 * (done as real) / (total as real);
    }
    forall r | r in recs
      ensures 0.0 <= r.progress <= 100.0
    {
      ProgressBounds(r.tasks);
    }
  }
}

/**
 * The select combinator of `src/select.rs`: a future that borrows a slice of
 * tasks and, each time it is polled, polls the tasks in ascending order and
 * finishes with the index and value of the first one that is ready.  Polling
 * a slot is an in-place update of that array element.
 */
module Select {
  import opened Tasks
  import opened SelectSpec

  /** `SelectFuture`: the borrowed slice, of mandatory or of optional slots. */
  datatype SelectFuture<T> =
    | Future(tasks: array<Task<T>>)
    | OptFuture(slots: array<Option<Task<T>>>)
  {
    /** The slice the future borrows: the only memory a poll may change. */
    function Repr(): set<object> {
      match this
      case Future(a) => {a}
      case OptFuture(a) => {a}
    }

    /** No slot that the next poll will reach holds a completed task. */
    predicate CanPoll()
      reads Repr()
    {
      match this
      case Future(a) => CanPass(a[..])
      case OptFuture(a) => CanPassSlots(a[..])
    }

    /** `SelectFuture::poll`: one pass over the borrowed slice. */
    method Poll() returns (r: Poll<(nat, T)>)
      requires CanPoll()
      modifies Repr()
      ensures this.Future? ==>
        && r == TaskPass(old(tasks[..])).poll
        && tasks[..] == TaskPass(old(tasks[..])).after
      ensures this.OptFuture? ==>
        && r == SlotPass(old(slots[..])).poll
        && slots[..] == SlotPass(old(slots[..])).after
    {
      match this
      case Future(a) => r := PollTasks(a);
      case OptFuture(a) => r := PollSlots(a);
    }
  }

  /** `Select::select` for `[A]`: borrow a slice of mandatory slots. */
  function SelectTasks<T>(tasks: array<Task<T>>): (f: SelectFuture<T>)
    ensures f.Future? && f.tasks == tasks && f.Repr() == {tasks}
  {
    Future(tasks)
  }

  /** `Select::select` for `[Option<A>]`: borrow a slice of optional slots. */
  function SelectSlots<T>(slots: array<Option<Task<T>>>): (f: SelectFuture<T>)
    ensures f.OptFuture? && f.slots == slots && f.Repr() == {slots}
  {
    OptFuture(slots)
  }

  /**
   * The `Future` arm of `SelectFuture::poll`: poll each task once, in
   * order, and return at the first that is ready.
   */
  method PollTasks<T>(tasks: array<Task<T>>) returns (r: Poll<(nat, T)>)
    requires CanPass(tasks[..])
    modifies tasks
    ensures r == TaskPass(old(tasks[..])).poll
    ensures tasks[..] == TaskPass(old(tasks[..])).after
  {
    ghost var s := tasks[..];
    ghost var k := FirstReady(s);
    TaskPassFirstReadyWins(s);
    var taskId := 0;
    var i := 0;
    while i < tasks.Length
      invariant 0 <= i <= k
      invariant taskId == i
      invariant forall j :: 0 <= j < i ==> tasks[j] == Polled(s[j])
      invariant forall j :: i <= j < tasks.Length ==> tasks[j] == s[j]
    {
      var (p, t) := Step(tasks[i]);
      tasks[i] := t;
      match p {
        case Ready(v) =>
          r := Ready((taskId, v));
          TaskPassAfterDetermined(s, tasks[..]);
          return;
        case Pending =>
      }
      taskId := taskId + 1;
      i := i + 1;
    }
    r := Pending;
    TaskPassAfterDetermined(s, tasks[..]);
  }

  /**
   * The `OptFuture` arm of `SelectFuture::poll`: skip empty slots, poll
   * each occupied one once, in order, and at the first that is ready vacate
   * its slot and return.  The counter reported as the index moves only past
   * occupied slots.
   */
  method PollSlots<T>(slots: array<Option<Task<T>>>) returns (r: Poll<(nat, T)>)
    requires CanPassSlots(slots[..])
    modifies slots
    ensures r == SlotPass(old(slots[..])).poll
    ensures slots[..] == SlotPass(old(slots[..])).after
  {
    ghost var s := slots[..];
    ghost var k := FirstReadySlot(s);
    SlotPassFirstReadyWins(s);
    var taskId := 0;
    var i := 0;
    while i < slots.Length
      invariant 0 <= i <= k
      invariant taskId == Occupied(s[..i])
      invariant forall j :: 0 <= j < i ==> slots[j] == PolledSlot(s[j])
      invariant forall j :: i <= j < slots.Length ==> slots[j] == s[j]
    {
      match slots[i] {
        case None =>
          assert s[..i + 1] == s[..i] + [s[i]];
          OccupiedAppend(s[..i], s[i]);
        case Some(task) =>
          var (p, t) := Step(task);
          match p {
            case Ready(v) =>
              assert i == k;
              slots[i] := None;
              r := Ready((taskId, v));
              SlotPassAfterDetermined(s, slots[..]);
              return;
            case Pending =>
              slots[i] := Some(t);
          }
          assert s[..i + 1] == s[..i] + [s[i]];
          OccupiedAppend(s[..i], s[i]);
          taskId := taskId + 1;
      }
      i := i + 1;
    }
    r := Pending;
    SlotPassAfterDetermined(s, slots[..]);
  }

  /**
   * `DynFuture`: a uniform handle on a future that stays where its owner
   * keeps it; the handle only borrows it.
   */
  class DynFuture<T> {
    const inner: FutureObject<T>

    /** `DynFut::dyn_fut`: wrap a borrowed future without touching it. */
    constructor (f: FutureObject<T>)
      ensures inner == f && inner.state == old(f.state)
    {
      inner := f;
    }

    /**
     * `DynFuture::poll`: forward one poll to the borrowed future, which
     * advances in place, and return what it returned.
     */
    method Poll() returns (r: Poll<T>)
      requires inner.state.Running?
      modifies inner
      ensures (r, inner.state) == Step(old(inner.state))
    {
      r := inner.Poll();
    }
  }
}

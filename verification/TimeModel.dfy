/** The values and the rules of virtual time that one participant keeps: when its current step
    runs, which step it wants next, and what the other participants last announced. */
module TimeModel {
  import opened Basics

  /** One simulation step in nanoseconds: the point at which it begins and its length. */
  datatype Task = Task(timePoint: int, duration: int)

  datatype Times<!K> = Times(current: Task, next: Task, others: map<K, Task>, dynamic: bool)

  /** What is recorded for a participant that was discovered but has announced nothing yet. */
  const UNKNOWN := Task(-1, 0)

  /** The earliest of the two points a task names, its begin and its end, that lies after `from`. */
  function FirstStop(task: Task, from: int): Option<int> {
    var end := task.timePoint + task.duration;
    if task.timePoint > from then
      Some(if from < end < task.timePoint then end else task.timePoint)
    else if end > from then
      Some(end)
    else
      None
  }

  function Receive<K>(t: Times<K>, from: K, task: Task): Times<K> {
    if from in t.others then t.(others := t.others[from := task]) else t
  }

  /** Some other participant still wants to run a step before ours. */
  ghost predicate Blocked<K>(t: Times<K>) {
    exists k | k in t.others :: t.next.timePoint > t.others[k].timePoint
  }

  /** `len` is the length of the step that begins at `t.next`: our own step size, unless dynamic
      stepping shortens it to the earliest point another participant is known to stop at. */
  ghost predicate StepLength<K>(t: Times<K>, len: int) {
    if t.dynamic then
      && len <= t.next.duration
      && (forall k | k in t.others :: NotPast(t.others[k], t.next.timePoint, len))
      && (len == t.next.duration
          || exists k | k in t.others :: StopsAt(t.others[k], t.next.timePoint, len))
    else
      len == t.next.duration
  }

  ghost predicate NotPast(task: Task, from: int, len: int) {
    var stop := FirstStop(task, from);
    stop.Some? ==> from + len <= stop.value
  }

  ghost predicate StopsAt(task: Task, from: int, len: int) {
    FirstStop(task, from) == Some(from + len)
  }

  /** The state after a step of length `len` has begun. */
  function Advanced<K>(t: Times<K>, len: int): Times<K> {
    t.(current := Task(t.next.timePoint, len), next := t.next.(timePoint := t.next.timePoint + len))
  }

  /** A participant that has not stepped yet takes a peer for an already running simulation when
      the peer's announced time point exceeds the peer's announced duration. */
  ghost predicate HopOn<K>(t: Times<K>) {
    && t.current.timePoint == -1
    && exists k | k in t.others :: t.others[k].timePoint > t.others[k].duration
  }

  /** Two participants with the same knowledge take the same step: the rule is a function. */
  lemma StepLengthUnique<K>(t: Times<K>, a: int, b: int)
    requires StepLength(t, a) && StepLength(t, b)
    ensures a == b
  {
    if t.dynamic && a != t.next.duration {
      var k :| k in t.others && StopsAt(t.others[k], t.next.timePoint, a);
      assert NotPast(t.others[k], t.next.timePoint, b);
    }
    if t.dynamic && b != t.next.duration {
      var k :| k in t.others && StopsAt(t.others[k], t.next.timePoint, b);
      assert NotPast(t.others[k], t.next.timePoint, a);
    }
  }

  /** A step length always exists, and it is positive when the step size is. */
  lemma {:induction false} StepLengthExists<K>(t: Times<K>)
    requires t.next.duration > 0
    ensures exists len :: len > 0 && StepLength(t, len)
    decreases |t.others|
  {
    if !t.dynamic || t.others == map[] {
      assert StepLength(t, t.next.duration);
    } else {
      var k :| k in t.others;
      var rest := t.others - {k};
      assert rest.Keys == t.others.Keys - {k};
      var t' := t.(others := rest);
      StepLengthExists(t');
      var len :| len > 0 && StepLength(t', len);
      var from := t.next.timePoint;
      var stop := FirstStop(t.others[k], from);
      var len' := if stop.Some? && stop.value - from < len then stop.value - from else len;
      forall m | m in t.others ensures NotPast(t.others[m], from, len') {
        if m != k {
          assert NotPast(t'.others[m], from, len);
        }
      }
      if len' == len && len != t.next.duration {
        var m :| m in t'.others && StopsAt(t'.others[m], from, len);
        assert m in t.others && StopsAt(t.others[m], from, len');
      } else if len' != len {
        assert StopsAt(t.others[k], from, len');
      }
      assert StepLength(t, len');
    }
  }

  ghost function LengthOf<K>(t: Times<K>): (len: int)
    requires t.next.duration > 0
    ensures len > 0 && StepLength(t, len)
  {
    StepLengthExists(t);
    var len :| len > 0 && StepLength(t, len);
    len
  }

}

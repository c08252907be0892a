/** The mutable record in which a participant keeps its virtual time. Its methods are proved
    against the rules of TimeModel, which the distributed algorithm in TimeSync runs on. */
module TimeConfiguration {
  import opened TimeModel

  const NS_MAX: int := 0x7FFF_FFFF_FFFF_FFFF

  datatype Outcome = Updated | UnknownParticipant | ChronologyError
  datatype Checked = Done | ZeroDuration

  /** No sum the code forms leaves the 64-bit range, in which it would be undefined. */
  ghost predicate Representable<K>(t: Times<K>) {
    && 0 <= t.next.timePoint <= NS_MAX && t.next.timePoint + t.next.duration <= NS_MAX
    && forall k | k in t.others :: InRange(t.others[k])
  }

  ghost predicate InRange(task: Task) {
    task.timePoint <= NS_MAX && task.timePoint + task.duration <= NS_MAX
  }

  /** Where a late joiner starts: at the earliest time point among the peers that have already
      advanced, or at the sentinel when there is none. */
  ghost predicate JoinPoint<K>(others: map<K, Task>, point: int) {
    && (forall k | k in others && others[k].timePoint > others[k].duration :: point <= others[k].timePoint)
    && (|| point == NS_MAX
        || exists k | k in others :: others[k].timePoint > others[k].duration && others[k].timePoint == point)
  }

  class TimeConfiguration<K(==, !new)> {
    var currentTask: Task
    var myNextTask: Task
    var otherNextTasks: map<K, Task>
    var hoppedOn: bool
    var dynamicStepSizeEnabled: bool

    ghost function Value(): Times<K>
      reads this
    {
      Times(currentTask, myNextTask, otherNextTasks, dynamicStepSizeEnabled)
    }

    constructor ()
      ensures Value() == Times(UNKNOWN, Task(0, 1_000_000), map[], false)
      ensures !hoppedOn
    {
      currentTask := Task(-1, 0);
      myNextTask := Task(0, 1_000_000);
      otherNextTasks := map[];
      hoppedOn := false;
      dynamicStepSizeEnabled := false;
    }

    method Initialize()
      modifies this
      ensures Value() == old(Value()).(current := UNKNOWN, next := Task(0, old(myNextTask.duration)))
      ensures !hoppedOn
    {
      currentTask := Task(-1, 0);
      myNextTask := myNextTask.(timePoint := 0);
      hoppedOn := false;
    }

    method SetDynamicStepSizeEnabled(enabled: bool)
      modifies this`dynamicStepSizeEnabled
      ensures Value() == old(Value()).(dynamic := enabled)
    {
      dynamicStepSizeEnabled := enabled;
    }

    method AddSynchronizedParticipant(name: K)
      modifies this`otherNextTasks
      ensures otherNextTasks ==
              if name in old(otherNextTasks) then old(otherNextTasks) else old(otherNextTasks)[name := UNKNOWN]
    {
      if name in otherNextTasks {
        return;
      }
      otherNextTasks := otherNextTasks[name := Task(-1, 0)];
    }

    method RemoveSynchronizedParticipant(name: K) returns (found: bool)
      modifies this`otherNextTasks
      ensures found == (name in old(otherNextTasks))
      ensures otherNextTasks == old(otherNextTasks) - {name}
    {
      found := name in otherNextTasks;
      if found {
        otherNextTasks := otherNextTasks - {name};
      }
    }

    /** An announcement that goes back in time is reported but still recorded. */
    method OnReceiveNextSimStep(name: K, nextStep: Task) returns (r: Outcome)
      modifies this`otherNextTasks
      ensures Value() == Receive(old(Value()), name, nextStep)
      ensures r == if name !in old(otherNextTasks) then UnknownParticipant
                   else if nextStep.timePoint < old(otherNextTasks)[name].timePoint then ChronologyError
                   else Updated
    {
      if name !in otherNextTasks {
        return UnknownParticipant;
      }
      r := if nextStep.timePoint < otherNextTasks[name].timePoint then ChronologyError else Updated;
      otherNextTasks := otherNextTasks[name := nextStep];
    }

    method SetStepDuration(duration: int) returns (r: Checked)
      modifies this`myNextTask
      ensures r == if duration == 0 then ZeroDuration else Done
      ensures myNextTask == if duration == 0 then old(myNextTask) else Task(old(myNextTask.timePoint), duration)
    {
      if duration == 0 {
        return ZeroDuration;
      }
      myNextTask := myNextTask.(duration := duration);
      r := Done;
    }

    method OtherParticipantHasLowerTimepoint() returns (r: bool)
      ensures r <==> Blocked(Value())
    {
      var names := otherNextTasks.Keys;
      while names != {}
        invariant names <= otherNextTasks.Keys
        invariant forall k | k in otherNextTasks && k !in names :: myNextTask.timePoint <= otherNextTasks[k].timePoint
        decreases |names|
      {
        var name :| name in names;
        if myNextTask.timePoint > otherNextTasks[name].timePoint {
          return true;
        }
        names := names - {name};
      }
      return false;
    }

    /** The distance to the earliest stop of another participant, at least the rest of the range when
        none is known. Its last ensures makes the chronology error the code reports here unreachable. */
    method GetMinimalAlignedDuration() returns (d: int)
      requires 0 <= currentTask.timePoint <= NS_MAX
      requires forall k | k in otherNextTasks :: InRange(otherNextTasks[k])
      ensures forall k | k in otherNextTasks :: NotPast(otherNextTasks[k], currentTask.timePoint, d)
      ensures || d >= NS_MAX - currentTask.timePoint
              || exists k | k in otherNextTasks :: StopsAt(otherNextTasks[k], currentTask.timePoint, d)
      ensures d >= 0
    {
      if |otherNextTasks| == 0 {
        return NS_MAX;
      }
      var from := currentTask.timePoint;
      var earliest := NS_MAX;
      var names := otherNextTasks.Keys;
      while names != {}
        invariant names <= otherNextTasks.Keys
        invariant from <= earliest <= NS_MAX
        invariant forall k | k in otherNextTasks && k !in names :: NotPast(otherNextTasks[k], from, earliest - from)
        invariant || earliest == NS_MAX
                  || exists k | k in otherNextTasks :: StopsAt(otherNextTasks[k], from, earliest - from)
        decreases |names|
      {
        var name :| name in names;
        var before := earliest;
        var start := otherNextTasks[name].timePoint;
        var end := otherNextTasks[name].timePoint + otherNextTasks[name].duration;
        if start > from {
          earliest := if start < earliest then start else earliest;
        }
        if end > from {
          earliest := if end < earliest then end else earliest;
        }
        names := names - {name};
        if earliest < before {
          assert StopsAt(otherNextTasks[name], from, earliest - from);
        } else {
          assert earliest == before;
        }
      }
      d := earliest - from;
    }

    method AdvanceTimeStep()
      requires Representable(Value())
      modifies this
      ensures exists len :: StepLength(old(Value()), len) && Value() == Advanced(old(Value()), len)
      ensures hoppedOn == old(hoppedOn)
    {
      ghost var before := Value();
      currentTask := myNextTask;
      if dynamicStepSizeEnabled {
        var minAlignedDuration := GetMinimalAlignedDuration();
        if minAlignedDuration < currentTask.duration {
          currentTask := currentTask.(duration := minAlignedDuration);
        }
      }
      myNextTask := myNextTask.(timePoint := currentTask.timePoint + currentTask.duration);
      assert StepLength(before, currentTask.duration);
      assert Value() == Advanced(before, currentTask.duration);
    }

    /** Only a participant that has not stepped yet can hop on; it then starts at the join point. */
    method IsHopOn() returns (r: bool)
      requires forall k | k in otherNextTasks :: InRange(otherNextTasks[k])
      modifies this`hoppedOn, this`myNextTask
      ensures !old(hoppedOn) ==> (r <==> HopOn(old(Value())))
      ensures old(hoppedOn) ==> (r <==> currentTask.timePoint == -1)
      ensures hoppedOn == (old(hoppedOn) || r)
      ensures myNextTask.duration == old(myNextTask.duration)
      ensures if r then JoinPoint(otherNextTasks, myNextTask.timePoint) else myNextTask == old(myNextTask)
    {
      if currentTask.timePoint == -1 {
        var minimalOtherTime := NS_MAX;
        var names := otherNextTasks.Keys;
        while names != {}
          invariant names <= otherNextTasks.Keys
          invariant minimalOtherTime <= NS_MAX
          invariant myNextTask == old(myNextTask)
          invariant hoppedOn == (
            || old(hoppedOn)
            || exists k | k in otherNextTasks && k !in names :: otherNextTasks[k].timePoint > otherNextTasks[k].duration)
          invariant forall k | k in otherNextTasks && k !in names && otherNextTasks[k].timePoint > otherNextTasks[k].duration ::
            minimalOtherTime <= otherNextTasks[k].timePoint
          invariant || minimalOtherTime == NS_MAX
                    || exists k | k in otherNextTasks :: otherNextTasks[k].timePoint > otherNextTasks[k].duration
                                                         && otherNextTasks[k].timePoint == minimalOtherTime
          decreases |names|
        {
          var name :| name in names;
          var task := otherNextTasks[name];
          if task.timePoint > task.duration {
            hoppedOn := true;
            if task.timePoint < minimalOtherTime {
              minimalOtherTime := task.timePoint;
            }
          }
          names := names - {name};
        }
        if hoppedOn {
          myNextTask := myNextTask.(timePoint := minimalOtherTime);
          return true;
        }
      }
      return false;
    }
  }
}

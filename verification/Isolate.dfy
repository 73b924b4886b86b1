/** domain/services/isolate.go: the box allocator and the commands of one sandbox instance. */
module Isolate {
  import opened Models
  import opened Sandbox

  class IsolateService {
    // The channels of box ids: received at the front, sent at the back.
    var runBoxIds: seq<int>
    var gradeBoxIds: seq<int>
    const runCap: nat
    const gradeCap: nat

    /** What is on disk for each box id. */
    var disk: map<int, Box>

    constructor (runQueueAmount: nat, gradeQueueAmount: nat)
      ensures runBoxIds == seq(runQueueAmount, i => i)
      ensures gradeBoxIds == seq(gradeQueueAmount * 2, i => runQueueAmount + i)
      ensures runCap == runQueueAmount && gradeCap == gradeQueueAmount * 2
    {
      var run, grade := [], [];
      for i := 0 to runQueueAmount
        invariant run == seq(i, k => k)
      {
        run := run + [i];
      }
      var gradePoolSize := gradeQueueAmount * 2;
      for i := 0 to gradePoolSize
        invariant grade == seq(i, k => runQueueAmount + k)
      {
        grade := grade + [runQueueAmount + i];
      }
      runBoxIds, gradeBoxIds := run, grade;
      runCap, gradeCap := runQueueAmount, gradePoolSize;
      disk := map[];
    }

    function BoxAt(b: int): Box
      reads this
    {
      if b in disk then disk[b] else FRESH
    }

    method NewRunInstance() returns (i: IsolateInstance)
      requires runBoxIds != []
      modifies this`runBoxIds
      ensures fresh(i) && i.service == this && !i.forGrade && i.boxID == old(runBoxIds)[0]
      ensures runBoxIds == old(runBoxIds)[1..]
    {
      i := new IsolateInstance(this, runBoxIds[0], false);
      runBoxIds := runBoxIds[1..];
    }

    method NewGradeInstance() returns (i: IsolateInstance)
      requires gradeBoxIds != []
      modifies this`gradeBoxIds
      ensures fresh(i) && i.service == this && i.forGrade && i.boxID == old(gradeBoxIds)[0]
      ensures gradeBoxIds == old(gradeBoxIds)[1..]
    {
      i := new IsolateInstance(this, gradeBoxIds[0], true);
      gradeBoxIds := gradeBoxIds[1..];
    }
  }

  class IsolateInstance {
    const service: IsolateService
    const boxID: int
    const forGrade: bool

    constructor (service: IsolateService, boxID: int, forGrade: bool)
      ensures this.service == service && this.boxID == boxID && this.forGrade == forGrade
    {
      this.service, this.boxID, this.forGrade := service, boxID, forGrade;
    }

    function Box(): Box
      reads service
    {
      service.BoxAt(boxID)
    }

    /** Only this instance's box may have changed. */
    twostate predicate OnlyOwnBox()
      reads service
    {
      && (forall b :: b != boxID ==> service.BoxAt(b) == old(service.BoxAt(b)))
    }

    /** False when the process exits: the init command failed, as it does under a cancelled context. */
    method Init(cancelled: bool) returns (alive: bool)
      modifies service`disk
      ensures OnlyOwnBox()
      ensures alive ==> !cancelled && Box() == FRESH
    {
      if cancelled {
        return false;
      }
      if * {
        return false;
      }
      service.disk := service.disk[boxID := FRESH];
      return true;
    }

    /** False when the process exits; otherwise the box id is back at the end of its channel. */
    method Cleanup() returns (alive: bool)
      modifies service
      ensures OnlyOwnBox()
      ensures !alive ==> service.gradeBoxIds == old(service.gradeBoxIds) && service.runBoxIds == old(service.runBoxIds)
      ensures alive && forGrade ==> service.gradeBoxIds == old(service.gradeBoxIds) + [boxID]
                                    && service.runBoxIds == old(service.runBoxIds)
      ensures alive && !forGrade ==> service.runBoxIds == old(service.runBoxIds) + [boxID]
                                     && service.gradeBoxIds == old(service.gradeBoxIds)
    {
      if * {
        return false;
      }
      service.disk := service.disk[boxID := FRESH];
      if forGrade {
        service.gradeBoxIds := service.gradeBoxIds + [boxID];
      } else {
        service.runBoxIds := service.runBoxIds + [boxID];
      }
      return true;
    }

    method CreateFile(env: Env, f: File) returns (ok: bool)
      modifies service`disk
      ensures OnlyOwnBox()
      ensures ok == env.canWrite(old(Box()), f)
      ensures Box() == if ok then Write(old(Box()), f) else old(Box())
    {
      ok := env.canWrite(Box(), f);
      if ok {
        service.disk := service.disk[boxID := Write(Box(), f)];
      }
    }

    method CompileUsing(env: Env, scriptDir: string) returns (output: string, failed: bool)
      modifies service`disk
      ensures OnlyOwnBox()
      ensures var e := env.compile(old(Box()), scriptDir);
              output == e.Output() && failed == !e.exit.Succeeded? && Box() == e.box
    {
      var e := env.compile(Box(), scriptDir);
      service.disk := service.disk[boxID := e.box];
      return e.Output(), !e.exit.Succeeded?;
    }

    /** An exit status of 127 comes back as an error that is not an exec.ExitError. */
    method RunFromDir(env: Env, p: Program) returns (output: string, err: Exit)
      modifies service`disk
      ensures OnlyOwnBox()
      ensures var e := env.run(old(Box()), p);
              output == e.Output() && Box() == e.box && err == if e.exit == ExitStatus(127) then OtherError else e.exit
    {
      var e := env.run(Box(), p);
      service.disk := service.disk[boxID := e.box];
      match e.exit {
        case ExitStatus(code) =>
          if code == 127 {
            return e.Output(), OtherError;
          }
          return e.Output(), e.exit;
        case _ =>
          return e.Output(), e.exit;
      }
    }

    /** An exit status of 1 is how a compare script reports a mismatch, and no error. */
    method RunWithDir(env: Env, mountDir: string) returns (output: string, failed: bool)
      modifies service`disk
      ensures OnlyOwnBox()
      ensures var e := env.compare(old(Box()), mountDir);
              output == e.Output() && Box() == e.box && (failed <==> !e.exit.Succeeded? && e.exit != ExitStatus(1))
    {
      var e := env.compare(Box(), mountDir);
      service.disk := service.disk[boxID := e.box];
      match e.exit {
        case Succeeded =>
          return e.Output(), false;
        case ExitStatus(code) =>
          if code == 127 {
            return e.Output(), true;
          }
          if code == 1 {
            return e.Output(), false;
          }
          return e.Output(), true;
        case OtherError =>
          return e.Output(), true;
      }
    }
  }
}

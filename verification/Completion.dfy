/** The completion in the form of rt_ext/completion.c: the flag and the suspended list updated in place. */
module Completions {
  import opened Common
  import opened Kernel
  import opened CompletionModel

  class CompletionObject {
    var flag: bool
    var suspendedList: seq<ThreadId>
    // the control blocks of the threads inside wait
    var threads: map<ThreadId, Waiter>
    ghost var signals: nat
    ghost var delivered: nat
    ghost var dropped: nat

    ghost function View(): Completion
      reads this
    {
      Completion(flag, suspendedList, threads, signals, delivered, dropped)
    }

    ghost predicate Valid()
      reads this
    {
      CompletionModel.Valid(View())
    }

    /** `rt_completion_init`. */
    constructor ()
      ensures Valid() && View() == INIT
    {
      flag, suspendedList, threads := false, [], map[];
      signals, delivered, dropped := 0, 0, 0;
    }

    /** `rt_completion_wait` up to the place where the thread sleeps or returns. */
    method EnterWait(t: ThreadId, wait: Wait) returns (result: Option<Error>)
      requires Valid() && Enabled(View(), Enter(t, wait))
      modifies this
      ensures Valid() && View() == Apply(old(View()), Enter(t, wait))
      ensures result == if old(flag) then Some(EOK) else if wait == NoWait then Some(ETIMEOUT) else None
    {
      ApplyValid(View(), Enter(t, wait));
      if !flag {
        if wait == NoWait {
          return Some(ETIMEOUT);
        }
        threads := threads[t := Asleep(wait)];
        suspendedList := suspendedList + [t];
        return None;
      }
      flag := false;
      delivered := delivered + 1;
      return Some(EOK);
    }

    /** `rt_completion_wait` from the place where the thread is awake again. */
    method ExitWait(t: ThreadId) returns (result: Error)
      requires Valid() && Enabled(View(), Exit(t))
      modifies this
      ensures Valid() && View() == Apply(old(View()), Exit(t))
      ensures result == old(threads)[t].error
    {
      ApplyValid(View(), Exit(t));
      result := threads[t].error;
      if result == EOK {
        delivered := delivered + 1;
      } else if flag {
        dropped := dropped + 1;
      }
      threads := threads - {t};
      flag := false;
    }

    /** `rt_completion_done`. */
    method Complete()
      requires Valid()
      modifies this
      ensures Valid() && View() == Apply(old(View()), Done)
    {
      ApplyValid(View(), Done);
      if flag {
        return;
      }
      flag := true;
      signals := signals + 1;
      if suspendedList != [] {
        var thread := suspendedList[0];
        threads := threads[thread := Resumed(EOK)];
        suspendedList := Without(suspendedList, thread);
      }
    }
  }
}

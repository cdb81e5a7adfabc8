/** The operations of the task manager are the steps of the state machine. */
module ManagerSteps {
  import opened Tasks
  import opened TaskLifecycle
  import M = TaskManager

  /** The manager holds the table, the reader counts and the next order of the state. */
  ghost predicate Shows(manager: M.TaskManager, s: State)
    reads manager
  {
    && manager.Valid() && manager.tasks == s.tasks && manager.readers == s.readers
    && manager.nextSubmitOrder == s.nextOrder
  }

  predicate IsOperation(e: Event) {
    e.AcquireLease? || e.DropLease? || (e.Do? && (e.step.StartProcessing? || e.step.Settle?))
  }

  lemma SettleIs(c: Config, s: State, id: nat, fileNames: seq<string>, error: string, now: int)
    requires Enabled(c, s, Do(id, Settle(fileNames, error, now)))
    ensures var done := s.procs[id].Released? && s.procs[id].ok;
            var after := Apply(c, s, Do(id, Settle(fileNames, error, now)));
            && (done ==> after.tasks == WithCompleted(s.tasks, id, fileNames, now))
            && (!done ==> after.tasks == WithFailed(s.tasks, id, error, now))
            && after.readers == s.readers && after.nextOrder == s.nextOrder
  {
  }

  lemma StartIs(c: Config, s: State, id: nat, now: int)
    requires Enabled(c, s, Do(id, StartProcessing(now)))
    ensures var after := Apply(c, s, Do(id, StartProcessing(now)));
            && after.tasks == WithProcessing(s.tasks, id, now)
            && after.readers == s.readers && after.nextOrder == s.nextOrder
  {
  }

  /** Performs one step of the state machine by the method that the source calls for it. */
  method Perform(manager: M.TaskManager, c: Config, s: State, e: Event)
    requires Enabled(c, s, e) && IsOperation(e) && Shows(manager, s)
    modifies manager
    ensures Shows(manager, Apply(c, s, e))
  {
    match e {
      case AcquireLease(id) =>
        var leased := manager.AcquireResultLease(id);
      case DropLease(id) =>
        manager.DropLease(id);
      case Do(id, step) =>
        match step {
          case StartProcessing(now) =>
            StartIs(c, s, id, now);
            manager.SetProcessing(id, now);
          case Settle(fileNames, error, now) =>
            SettleIs(c, s, id, fileNames, error, now);
            if s.procs[id].Released? && s.procs[id].ok {
              manager.SetCompleted(id, fileNames, now);
            } else {
              manager.SetFailed(id, error, now);
            }
        }
    }
  }

  /** Submitting is taking the next order and then inserting the entry. */
  method Submit(manager: M.TaskManager, c: Config, s: State, id: nat, fileNames: seq<string>, outputDir: string)
    requires Inv(c, s) && Enabled(c, s, Do(id, TakeOrder)) && !s.cleaner.HoldsLock() && Shows(manager, s)
    modifies manager
    ensures Enabled(c, Apply(c, s, Do(id, TakeOrder)), Do(id, Insert(fileNames, outputDir)))
    ensures Shows(manager, Apply(c, Apply(c, s, Do(id, TakeOrder)), Do(id, Insert(fileNames, outputDir))))
  {
    NotYet(c, s, id);
    var order := manager.Submit(id, fileNames, outputDir);
    SubmitIs(c, s, id, fileNames, outputDir);
  }

  lemma NotYet(c: Config, s: State, id: nat)
    requires Inv(c, s) && Enabled(c, s, Do(id, TakeOrder))
    ensures id !in s.readers
  {
    hide PermitsBalance, OrdersOk, LeasesOk, CleanerOk, EntryOk;
    TaskOkAt(s, id);
  }

  lemma SubmitIs(c: Config, s: State, id: nat, fileNames: seq<string>, outputDir: string)
    requires Enabled(c, s, Do(id, TakeOrder)) && !s.cleaner.HoldsLock()
    ensures var taken := Apply(c, s, Do(id, TakeOrder));
            && Enabled(c, taken, Do(id, Insert(fileNames, outputDir)))
            && var after := Apply(c, taken, Do(id, Insert(fileNames, outputDir)));
               && after.tasks == s.tasks[id := NewEntry(s.nextOrder, fileNames, outputDir)]
               && after.readers == s.readers[id := 0] && after.nextOrder == s.nextOrder + 1
  {
  }
}

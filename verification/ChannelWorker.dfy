/** `ProcessMessageAsync` of a channel worker and of the status worker, for one message task: the duplicate
    check, the send, the status update, and the queue of status messages between the two writers. */
module ChannelWorker {
  import opened Options
  import Retry
  import RetryBounds

  datatype Status = Pending | Processing | Sent | Failed | Rejected

  /** The stored row of the task (None: no such row), the status messages under way, the successful provider
      sends so far, and how many of them were followed by a status update that did not reach the row. */
  datatype TaskState = TaskState(row: Option<Status>, updates: seq<Status>, sends: nat, unrecorded: nat)

  /** How saving the row ends: saved, not saved (by an error or a crash), or saved but reported as an error. */
  datatype Save = Saved | NotSaved | SavedUnreported

  datatype ProviderResult = Delivered | Refused | Unavailable

  /** What one call of `ProcessMessageAsync` meets: is there a credential of the right adapter, do both rate
      gates let it pass, what the provider answers, how the save ends, does the status message get out. */
  datatype Env = Env(credentialOk: bool, gatesPassed: bool, provider: ProviderResult, save: Save, statusPublished: bool)

  function Process(s: TaskState, env: Env): (Retry.Outcome, TaskState) {
    if s.row.None? then (Retry.OtherFailure, s)
    else if s.row.value == Sent then (Retry.Success, s)
    else if !env.credentialOk || !env.gatesPassed then (Retry.OtherFailure, s)
    else match env.provider
      case Unavailable => (Retry.TransientFailure, s)
      case Refused => (Retry.OtherFailure, s)
      case Delivered =>
        var sent := s.(sends := s.sends + 1);
        match env.save
        case NotSaved => (Retry.OtherFailure, sent.(unrecorded := sent.unrecorded + 1))
        case SavedUnreported => (Retry.OtherFailure, sent.(row := Some(Sent)))
        case Saved =>
          var updates := if env.statusPublished then sent.updates + [Sent] else sent.updates;
          (Retry.Success, sent.(row := Some(Sent), updates := updates))
  }

  /** The status worker takes status message i; it is `kept` if it will be delivered again. */
  function ApplyStatus(s: TaskState, i: nat, save: Save, kept: bool): TaskState
    requires i < |s.updates|
  {
    var row := if s.row.None? || save == NotSaved then s.row else Some(s.updates[i]);
    s.(row := row, updates := if kept then s.updates else s.updates[..i] + s.updates[i + 1..])
  }

  // ----- What a call does -----

  /** The call gets as far as the provider: the task exists, is not sent yet, and nothing stops it before. */
  predicate AsksProvider(row: Option<Status>, env: Env) {
    row.Some? && row.value != Sent && env.credentialOk && env.gatesPassed
  }

  /** The call makes one successful send. */
  predicate SendsTask(row: Option<Status>, env: Env) { AsksProvider(row, env) && env.provider == Delivered }

  /** One call sends exactly if nothing stops it before the provider and the provider delivers; then it marks the
      row unless the save fails, and announces the status if the save is known to have succeeded. */
  lemma CallSendsIff(s: TaskState, env: Env)
    ensures var after, sent := Process(s, env).1, SendsTask(s.row, env);
            && after.sends == s.sends + (if sent then 1 else 0)
            && after.row == (if sent && env.save != NotSaved then Some(Sent) else s.row)
            && after.updates == s.updates + (if sent && env.save == Saved && env.statusPublished then [Sent] else [])
            && after.unrecorded == s.unrecorded + (if sent && env.save == NotSaved then 1 else 0)
  {
  }

  /** How the call ends for the handler: well if the task is already sent or is sent and saved, with a transient
      failure exactly if the provider is unavailable, and with another failure in every other case. */
  lemma CallEndsIff(s: TaskState, env: Env)
    ensures var outcome := Process(s, env).0;
            && (outcome == Retry.Success <==> s.row == Some(Sent) || (SendsTask(s.row, env) && env.save == Saved))
            && (outcome == Retry.TransientFailure <==> AsksProvider(s.row, env) && env.provider == Unavailable)
            && (outcome == Retry.Success || outcome == Retry.TransientFailure || outcome == Retry.OtherFailure)
  {
  }

  // ----- The workers -----

  class MessageTask {
    var status: Status

    constructor (status: Status)
      ensures this.status == status
    {
      this.status := status;
    }
  }

  class Repository {
    var row: Option<Status>
    var updates: seq<Status>
    var sends: nat
    ghost var unrecorded: nat

    ghost function Abs(): TaskState
      reads this
    {
      TaskState(row, updates, sends, unrecorded)
    }

    constructor ()
      ensures Abs() == TaskState(Some(Pending), [], 0, 0)
    {
      row, updates, sends, unrecorded := Some(Pending), [], 0, 0;
    }

    method GetMessageTaskById() returns (task: MessageTask?)
      ensures task == null <==> row.None?
      ensures task != null ==> fresh(task) && task.status == row.value
    {
      if row.None? {
        return null;
      }
      task := new MessageTask(row.value);
    }

    method UpdateMessageTask(task: MessageTask, save: Save) returns (ok: bool)
      modifies this`row
      ensures ok == (save == Saved)
      ensures row == if save == NotSaved then old(row) else Some(task.status)
    {
      if save != NotSaved {
        row := Some(task.status);
      }
      ok := save == Saved;
    }

    /** The channel workers' `ProcessMessageAsync`. */
    method ProcessMessage(env: Env) returns (outcome: Retry.Outcome)
      modifies this
      ensures (outcome, Abs()) == Process(old(Abs()), env)
      ensures sends == old(sends) + (if SendsTask(old(row), env) then 1 else 0)
      ensures row == if SendsTask(old(row), env) && env.save != NotSaved then Some(Sent) else old(row)
      ensures outcome == Retry.Success <==>
                old(row) == Some(Sent) || (SendsTask(old(row), env) && env.save == Saved)
    {
      var existingTask := GetMessageTaskById();
      if existingTask == null {
        return Retry.OtherFailure;
      }
      if existingTask.status == Sent {
        return Retry.Success;
      }
      if !env.credentialOk {
        return Retry.OtherFailure;
      }
      if !env.gatesPassed {
        return Retry.OtherFailure;
      }
      if env.provider == Unavailable {
        return Retry.TransientFailure;
      }
      if env.provider == Refused {
        return Retry.OtherFailure;
      }
      sends := sends + 1;
      existingTask.status := Sent;
      var ok := UpdateMessageTask(existingTask, env.save);
      if !ok {
        if env.save == NotSaved {
          unrecorded := unrecorded + 1;
        }
        return Retry.OtherFailure;
      }
      if env.statusPublished {
        updates := updates + [Sent];
      }
      return Retry.Success;
    }

    /** The status worker's `ProcessMessageAsync`, up to the row it writes. */
    method ProcessStatus(i: nat, save: Save, kept: bool)
      requires i < |updates|
      modifies this
      ensures Abs() == ApplyStatus(old(Abs()), i, save, kept)
      ensures row == if old(row).None? || save == NotSaved then old(row) else Some(old(updates)[i])
      ensures kept ==> updates == old(updates)
      ensures !kept ==> updates == old(updates)[..i] + old(updates)[i + 1..]
    {
      var messageTask := GetMessageTaskById();
      if messageTask != null {
        messageTask.status := updates[i];
        var _ := UpdateMessageTask(messageTask, save);
      }
      if !kept {
        updates := updates[..i] + updates[i + 1..];
      }
    }
  }

  // ----- Runs -----

  /** Deliveries of the task handled one at a time, interleaved with status messages in any order. */
  datatype Event = Deliver(env: Env) | StatusMessage(index: nat, save: Save, kept: bool)

  predicate Enabled(s: TaskState, e: Event) { e.StatusMessage? ==> e.index < |s.updates| }

  function Step(s: TaskState, e: Event): TaskState
    requires Enabled(s, e)
  {
    match e
    case Deliver(env) => Process(s, env).1
    case StatusMessage(i, save, kept) => ApplyStatus(s, i, save, kept)
  }

  datatype Trace = Trace(states: seq<TaskState>, events: seq<Event>) {
    /** The task starts unsent, with no status message under way. */
    ghost predicate Valid() {
      && |states| == |events| + 1
      && states[0].row != Some(Sent) && states[0].updates == [] && states[0].sends == 0 && states[0].unrecorded == 0
      && (forall i :: 0 <= i < |events| ==> Follows(i))
    }

    ghost predicate Follows(i: nat)
      requires |states| == |events| + 1 && i < |events|
    {
      Enabled(states[i], events[i]) && states[i + 1] == Step(states[i], events[i])
    }
  }

  /** Only Sent is ever published, and only after the row says Sent; and every successful send is either on
      record in the row or one whose update was lost. */
  ghost predicate Inv(s: TaskState) {
    && (forall u :: u in s.updates ==> u == Sent)
    && (s.updates != [] ==> s.row == Some(Sent))
    && s.sends == s.unrecorded + (if s.row == Some(Sent) then 1 else 0)
  }

  lemma {:induction false} AlwaysInv(t: Trace, n: nat)
    requires t.Valid() && n < |t.states|
    ensures Inv(t.states[n])
  {
    if n == 0 {
    } else {
      AlwaysInv(t, n - 1);
      assert t.Follows(n - 1);
      var s, e := t.states[n - 1], t.events[n - 1];
      if e.StatusMessage? {
        assert s.updates[e.index] in s.updates;
        forall u | u in t.states[n].updates ensures u in s.updates {
        }
      }
    }
  }

  /** Status Sent is never left, and from then on nothing is sent. */
  lemma {:induction false} SentIsNeverLeft(t: Trace, m: nat, n: nat)
    requires t.Valid() && m <= n < |t.states| && t.states[m].row == Some(Sent)
    ensures t.states[n].row == Some(Sent) && t.states[n].sends == t.states[m].sends
    decreases n - m
  {
    if m == n {
    } else {
      SentIsNeverLeft(t, m, n - 1);
      AlwaysInv(t, n - 1);
      assert t.Follows(n - 1);
      var s, e := t.states[n - 1], t.events[n - 1];
      if e.StatusMessage? {
        assert s.updates[e.index] in s.updates;
      }
    }
  }

  /** Duplicate suppression, exactly: the successful sends are the updates lost after a send, plus one once
      the row says Sent. */
  lemma SendsAreCounted(t: Trace, n: nat)
    requires t.Valid() && n < |t.states|
    ensures t.states[n].sends == t.states[n].unrecorded + (if t.states[n].row == Some(Sent) then 1 else 0)
    ensures t.states[n].sends <= 1 + t.states[n].unrecorded
  {
    AlwaysInv(t, n);
  }

  /** The deliveries among the first n events that sent, and those that also got a status message out. */
  function SendingDeliveries(t: Trace, announced: bool, n: nat): nat
    requires n < |t.states| && n <= |t.events|
  {
    if n == 0 then 0
    else
      var e := t.events[n - 1];
      SendingDeliveries(t, announced, n - 1)
      + (if e.Deliver? && SendsTask(t.states[n - 1].row, e.env)
            && (announced ==> e.env.save == Saved && e.env.statusPublished) then 1 else 0)
  }

  function ConsumedStatusMessages(t: Trace, n: nat): nat
    requires n <= |t.events|
  {
    if n == 0 then 0
    else
      var e := t.events[n - 1];
      ConsumedStatusMessages(t, n - 1) + (if e.StatusMessage? && !e.kept then 1 else 0)
  }

  /** Over every run: the task was sent once for each delivery that met the conditions of a send, and the status
      messages under way are those announced less those consumed. */
  lemma {:induction false} EverySendIsADelivery(t: Trace, n: nat)
    requires t.Valid() && n < |t.states|
    ensures t.states[n].sends == SendingDeliveries(t, false, n)
    ensures |t.states[n].updates| + ConsumedStatusMessages(t, n) == SendingDeliveries(t, true, n)
  {
    if n == 0 {
    } else {
      EverySendIsADelivery(t, n - 1);
      assert t.Follows(n - 1);
      var e := t.events[n - 1];
      if e.Deliver? {
        hide Process, SendsTask;
        CallSendsIff(t.states[n - 1], e.env);
      }
    }
  }

  // ----- Together with the retry machine -----

  /** The successful sends among the invocations on m in a retry trace; sent(j) says whether event j sent. */
  ghost function SendsInTrace(t: Retry.Trace, sent: nat -> bool, m: nat, n: nat): nat
    requires t.Valid() && n < |t.states|
  {
    if n == 0 then 0
    else
      assert t.Follows(n - 1);
      SendsInTrace(t, sent, m, n - 1)
      + (if Retry.About(t.states[n - 1], t.events[n - 1], m) && Retry.IsInvocation(t.events[n - 1]) && sent(n - 1)
         then 1 else 0)
  }

  /** A call that sent never reports a transient failure, so the message is not scheduled for a retry. */
  lemma SendIsNotRetried(s: TaskState, env: Env)
    ensures Process(s, env).1.sends > s.sends ==> Process(s, env).0 != Retry.TransientFailure
  {
  }

  /** Every invocation on m that sent ended as a call of `ProcessMessageAsync` on some task state would. */
  ghost predicate SendsFitOutcomes(t: Retry.Trace, sent: nat -> bool, m: nat)
    requires t.Valid()
  {
    forall j: nat :: j < |t.events| && t.Follows(j) && Retry.About(t.states[j], t.events[j], m)
                     && Retry.IsInvocation(t.events[j]) && sent(j)
      ==> exists s: TaskState, env: Env :: Process(s, env).1.sends > s.sends && Process(s, env).0 == t.events[j].outcome
  }

  lemma {:induction false} SendsAreInvocations(t: Retry.Trace, sent: nat -> bool, m: nat, k: nat, n: nat)
    requires t.Valid() && k <= n < |t.states|
    ensures SendsInTrace(t, sent, m, k) <= SendsInTrace(t, sent, m, n)
    ensures SendsInTrace(t, sent, m, n) - SendsInTrace(t, sent, m, k)
         <= Retry.Invocations(t, m, n) - Retry.Invocations(t, m, k)
    decreases n - k
  {
    if k == n {
    } else {
      assert t.Follows(n - 1);
      SendsAreInvocations(t, sent, m, k, n - 1);
    }
  }

  /** Without channel faults and crashes a published message is sent successfully at most once, even if the
      status update fails: the failed update dead-letters the message instead of retrying it. */
  lemma {:induction false} AtMostOneSendWithoutFaults(t: Retry.Trace, sent: nat -> bool, m: nat, n: nat)
    requires t.Valid() && n < |t.states| && SendsFitOutcomes(t, sent, m) && Retry.Faults(t, m, n) == 0
    ensures SendsInTrace(t, sent, m, n) <= 1
  {
    if n == 0 {
    } else {
      var k := n - 1;
      assert t.Follows(k);
      hide Process, Retry.Enabled, Retry.WithinPrefetch, Retry.Step, Retry.About, SendsFitOutcomes;
      RetryBounds.FaultsGrow(t, m, k, n);
      AtMostOneSendWithoutFaults(t, sent, m, k);
      if SendsInTrace(t, sent, m, k) == 1 {
        var j := FirstSend(t, sent, m, k);
        SendOutcome(t, sent, m, j);
        RetryBounds.NonTransientInvocationIsLast(t, m, j, n);
        SendsAreInvocations(t, sent, m, j + 1, n);
      }
    }
  }

  lemma SendOutcome(t: Retry.Trace, sent: nat -> bool, m: nat, j: nat)
    requires t.Valid() && SendsFitOutcomes(t, sent, m) && j < |t.events| && t.Follows(j)
    requires Retry.About(t.states[j], t.events[j], m) && Retry.IsInvocation(t.events[j]) && sent(j)
    ensures t.events[j].outcome != Retry.TransientFailure
  {
    var s: TaskState, env: Env :| Process(s, env).1.sends > s.sends && Process(s, env).0 == t.events[j].outcome;
    SendIsNotRetried(s, env);
  }

  lemma {:induction false} FirstSend(t: Retry.Trace, sent: nat -> bool, m: nat, n: nat) returns (j: nat)
    requires t.Valid() && n < |t.states| && SendsInTrace(t, sent, m, n) == 1
    ensures j < n && t.Follows(j) && Retry.About(t.states[j], t.events[j], m)
    ensures Retry.IsInvocation(t.events[j]) && sent(j) && SendsInTrace(t, sent, m, j + 1) == 1
  {
    assert t.Follows(n - 1);
    if SendsInTrace(t, sent, m, n - 1) == 1 {
      j := FirstSend(t, sent, m, n - 1);
    } else {
      j := n - 1;
    }
  }
}
